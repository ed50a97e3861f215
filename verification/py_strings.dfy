/** The parts of Python's `str` behaviour the model relies on: `isspace`,
    `strip()` and the substring test `sub in s`. */
module PyStrings {

  /** Python's `str.isspace` for one character: the ASCII separators
      (tab, line feed, vertical tab, form feed, carriage return, the
      information separators 0x1C-0x1F and space) and the Unicode
      whitespace code points. */
  predicate IsSpace(c: char) {
    || ('\t' <= c <= '\r')
    || ('\U{1C}' <= c <= ' ')
    || c == '\U{85}' || c == '\U{A0}' || c == '\U{1680}'
    || ('\U{2000}' <= c <= '\U{200A}')
    || c == '\U{2028}' || c == '\U{2029}' || c == '\U{202F}'
    || c == '\U{205F}' || c == '\U{3000}'
  }

  predicate AllSpace(s: string) {
    forall i :: 0 <= i < |s| ==> IsSpace(s[i])
  }

  /** Neither end of `r` is whitespace. */
  predicate Trimmed(r: string) {
    r == [] || (!IsSpace(r[0]) && !IsSpace(r[|r| - 1]))
  }

  /** `r` is what is left of `s` once whitespace is removed from both ends:
      `s` is `r` wrapped in two runs of whitespace, and `r` has none at its ends. */
  ghost predicate IsStripOf(s: string, r: string) {
    exists pre, post :: s == pre + r + post && AllSpace(pre) && AllSpace(post) && Trimmed(r)
  }

  /** Length of the whitespace run at the start of `s`. */
  function LeadingSpaces(s: string): (n: nat)
    ensures n <= |s|
    ensures AllSpace(s[..n])
    ensures n < |s| ==> !IsSpace(s[n])
  {
    if s == [] || !IsSpace(s[0]) then 0
    else
      var n := 1 + LeadingSpaces(s[1..]);
      assert forall i :: 1 <= i < n ==> s[i] == s[1..][i - 1];
      n
  }

  /** Length of the whitespace run at the end of `s`. */
  function TrailingSpaces(s: string): (n: nat)
    ensures n <= |s|
    ensures AllSpace(s[|s| - n..])
    ensures n < |s| ==> !IsSpace(s[|s| - 1 - n])
  {
    if s == [] || !IsSpace(s[|s| - 1]) then 0
    else
      var init := s[..|s| - 1];
      var n := 1 + TrailingSpaces(init);
      assert forall i :: |s| - n <= i < |s| - 1 ==> s[i] == init[i];
      n
  }

  /** Python's `s.strip()` with no argument. */
  function Strip(s: string): (r: string)
    ensures IsStripOf(s, r)
    ensures Trimmed(r)
    ensures |r| <= |s|
  {
    var i := LeadingSpaces(s);
    var j := TrailingSpaces(s[i..]);
    TrailOfSuffix(s, i, j);
    StripParts(s, i, j);
    var r := s[i..|s| - j];
    assert s == s[..i] + r + s[|s| - j..] && AllSpace(s[..i]) && AllSpace(s[|s| - j..]);
    r
  }

  /** The trailing run of a suffix of `s` seen as a slice of `s`. */
  lemma TrailOfSuffix(s: string, i: nat, j: nat)
    requires i <= |s| && j <= |s| - i
    requires AllSpace(s[i..][|s| - i - j..])
    requires j < |s| - i ==> !IsSpace(s[i..][|s| - i - 1 - j])
    ensures AllSpace(s[|s| - j..])
    ensures j < |s| - i ==> !IsSpace(s[|s| - 1 - j])
  {
  }

  /** The pieces `Strip` cuts `s` into: a leading whitespace run, a trimmed
      core and a trailing whitespace run. */
  lemma StripParts(s: string, i: nat, j: nat)
    requires i <= |s| && j <= |s| - i
    requires i < |s| ==> !IsSpace(s[i])
    requires j < |s| - i ==> !IsSpace(s[|s| - 1 - j])
    ensures Trimmed(s[i..|s| - j])
    ensures s == s[..i] + s[i..|s| - j] + s[|s| - j..]
  {
  }

  /** The stripped form is unique: at most one string satisfies `IsStripOf`. */
  lemma {:induction false} StripOfUnique(s: string, r1: string, r2: string)
    requires IsStripOf(s, r1) && IsStripOf(s, r2)
    ensures r1 == r2
  {
    var p1, q1 :| s == p1 + r1 + q1 && AllSpace(p1) && AllSpace(q1) && Trimmed(r1);
    var p2, q2 :| s == p2 + r2 + q2 && AllSpace(p2) && AllSpace(q2) && Trimmed(r2);
    if r1 == [] && r2 != [] {
      NonSpaceInside(s, p2, r2, q2);
      assert s[|p2|] == r2[0];
      SpaceEverywhere(s, p1, q1);
      assert false;
    } else if r2 == [] && r1 != [] {
      NonSpaceInside(s, p1, r1, q1);
      SpaceEverywhere(s, p2, q2);
      assert false;
    } else if r1 != [] {
      SameOffsets(s, p1, r1, q1, p2, r2, q2);
      SameOffsets(s, p2, r2, q2, p1, r1, q1);
      assert r1 == s[|p1|..|s| - |q1|];
      assert r2 == s[|p2|..|s| - |q2|];
    }
  }

  lemma NonSpaceInside(s: string, p: string, r: string, q: string)
    requires s == p + r + q && Trimmed(r) && r != []
    ensures !IsSpace(s[|p|]) && !IsSpace(s[|s| - |q| - 1])
  {
  }

  lemma SpaceEverywhere(s: string, p: string, q: string)
    requires s == p + [] + q && AllSpace(p) && AllSpace(q)
    ensures AllSpace(s)
  {
  }

  /** With two wrappings of a non-empty trimmed core, the first wrapping's
      whitespace runs are no longer than the second's. */
  lemma SameOffsets(s: string, p1: string, r1: string, q1: string, p2: string, r2: string, q2: string)
    requires s == p1 + r1 + q1 && AllSpace(p1) && AllSpace(q1) && Trimmed(r1) && r1 != []
    requires s == p2 + r2 + q2 && AllSpace(p2) && AllSpace(q2) && Trimmed(r2) && r2 != []
    ensures |p1| <= |p2| && |q1| <= |q2|
  {
    NonSpaceInside(s, p2, r2, q2);
    assert forall i :: 0 <= i < |p1| ==> s[i] == p1[i];
    assert forall i :: |s| - |q1| <= i < |s| ==> s[i] == q1[i - (|s| - |q1|)];
  }

  /** Every string satisfying the stripping relation is the one `Strip` returns. */
  lemma StripCharacterized(s: string, r: string)
    ensures IsStripOf(s, r) <==> r == Strip(s)
  {
    if IsStripOf(s, r) {
      StripOfUnique(s, r, Strip(s));
    }
  }

  /** Stripping twice is the same as stripping once. */
  lemma StripIdempotent(s: string)
    ensures Strip(Strip(s)) == Strip(s)
  {
  }

  /** Python's `sub in s` for two strings, scanning `s` from the left. */
  predicate Contains(s: string, sub: string): (found: bool)
    ensures found ==> |sub| <= |s|
    ensures sub == [] ==> found
    decreases |s|
  {
    sub <= s || (s != [] && Contains(s[1..], sub))
  }

  /** `sub` occurs in `s` starting at index `i`. */
  predicate OccursAt(s: string, sub: string, i: int) {
    0 <= i && i + |sub| <= |s| && s[i..i + |sub|] == sub
  }

  /** The scan finds `sub` exactly when it occurs at some index of `s`. */
  lemma {:induction false} ContainsCharacterized(s: string, sub: string)
    ensures Contains(s, sub) <==> exists i :: OccursAt(s, sub, i)
    decreases |s|
  {
    assert sub <= s <==> OccursAt(s, sub, 0);
    if s != [] {
      ContainsCharacterized(s[1..], sub);
      forall i | 0 <= i
        ensures OccursAt(s[1..], sub, i) <==> OccursAt(s, sub, i + 1)
      {
        if i + |sub| <= |s[1..]| {
          assert s[1..][i..i + |sub|] == s[i + 1..i + 1 + |sub|];
        }
      }
      if exists i :: OccursAt(s, sub, i) {
        var i :| OccursAt(s, sub, i);
        if i > 0 {
          assert OccursAt(s[1..], sub, i - 1);
        }
      }
    } else {
      if exists i :: OccursAt(s, sub, i) {
        var i :| OccursAt(s, sub, i);
        assert i == 0;
      }
    }
  }
}
