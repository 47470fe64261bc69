/**
 * The Python `str` operations the core relies on, over `seq<char>`:
 * `isspace`/`strip`, ASCII `lower`, `replace`, `", ".join` and `split`,
 * and a substring test used to state properties.
 */
module Text {

  /** `str.isspace()`: also the class matched by `\s` in a `str` regex and removed by `str.strip()`. */
  predicate IsSpace(c: char) {
    || ('\t' <= c <= '\r')
    || ('\U{1C}' <= c <= '\U{1F}')
    || c == ' '
    || c == '\U{85}'
    || c == '\U{A0}'
    || c == '\U{1680}'
    || ('\U{2000}' <= c <= '\U{200A}')
    || c == '\U{2028}'
    || c == '\U{2029}'
    || c == '\U{202F}'
    || c == '\U{205F}'
    || c == '\U{3000}'
  }

  predicate IsAscii(c: char) { c < '\U{80}' }
  predicate IsUpper(c: char) { 'A' <= c <= 'Z' }
  predicate IsLower(c: char) { 'a' <= c <= 'z' }
  predicate IsDigit(c: char) { '0' <= c <= '9' }

  /** `str.lower()` on one character, for the ASCII range. */
  function LowerChar(c: char): char {
    if IsUpper(c) then (c as int + 32) as char else c
  }

  /** `str.lower()` (ASCII letters only): the same length, each character lowered in place. */
  function Lower(s: string): (r: string)
    ensures |r| == |s|
    ensures forall i :: 0 <= i < |s| ==> r[i] == LowerChar(s[i])
  {
    if s == [] then [] else [LowerChar(s[0])] + Lower(s[1..])
  }

  /** How many whitespace characters `str.lstrip()` removes. */
  function LeadingSpaces(s: string): (k: nat)
    ensures k <= |s|
    ensures forall i :: 0 <= i < k ==> IsSpace(s[i])
    ensures k < |s| ==> !IsSpace(s[k])
  {
    if s == [] || !IsSpace(s[0]) then 0 else 1 + LeadingSpaces(s[1..])
  }

  /** How many whitespace characters `str.rstrip()` removes. */
  function TrailingSpaces(s: string): (k: nat)
    ensures k <= |s|
    ensures forall i :: |s| - k <= i < |s| ==> IsSpace(s[i])
    ensures k < |s| ==> !IsSpace(s[|s| - 1 - k])
  {
    if s == [] || !IsSpace(s[|s| - 1]) then 0 else 1 + TrailingSpaces(s[..|s| - 1])
  }

  /** The slice of `s` that `str.strip()` keeps: [start, end). */
  function StripBounds(s: string): (b: (nat, nat))
    ensures b.0 <= b.1 <= |s|
    ensures forall i :: 0 <= i < b.0 ==> IsSpace(s[i])
    ensures forall i :: b.1 <= i < |s| ==> IsSpace(s[i])
    ensures b.0 < b.1 ==> !IsSpace(s[b.0]) && !IsSpace(s[b.1 - 1])
  {
    var a := LeadingSpaces(s);
    (a, |s| - TrailingSpaces(s[a..]))
  }

  /** `str.strip()`: a contiguous slice of `s` with no whitespace at either end, cut only at whitespace. */
  function Strip(s: string): (r: string)
    ensures StripBounds(s).0 + |r| == StripBounds(s).1
    ensures r == s[StripBounds(s).0..StripBounds(s).1]
    ensures r == [] || (!IsSpace(r[0]) && !IsSpace(r[|r| - 1]))
  {
    s[StripBounds(s).0..StripBounds(s).1]
  }

  /** `str.replace(pat, rep)`: every leftmost, non-overlapping occurrence of `pat`, scanning left to right. */
  function ReplaceAll(s: string, pat: string, rep: string): string
    requires |pat| > 0
    decreases |s|
  {
    if |s| < |pat| then s
    else if s[..|pat|] == pat then rep + ReplaceAll(s[|pat|..], pat, rep)
    else [s[0]] + ReplaceAll(s[1..], pat, rep)
  }

  /** `t` occurs in `s` starting at index `k`. */
  predicate At(s: string, t: string, k: int) {
    0 <= k <= |s| - |t| && s[k..k + |t|] == t
  }

  /** `t in s` for strings. */
  ghost predicate Contains(s: string, t: string) {
    exists k :: 0 <= k && At(s, t, k)
  }

  function Filter(s: string, keep: char -> bool): (r: string)
    ensures |r| <= |s|
    ensures forall i :: 0 <= i < |r| ==> keep(r[i])
  {
    if s == [] then [] else (if keep(s[0]) then [s[0]] else []) + Filter(s[1..], keep)
  }

  const ListSeparator := ", "

  /** `", ".join(xs)`. */
  function Join(xs: seq<string>): string {
    if xs == [] then "" else if |xs| == 1 then xs[0] else xs[0] + ListSeparator + Join(xs[1..])
  }

  /** `s.split(", ")`: split at every leftmost, non-overlapping occurrence of the separator. */
  function Split(s: string): (r: seq<string>)
    ensures |r| >= 1
    decreases |s|
  {
    if |s| < |ListSeparator| then [s]
    else if s[..|ListSeparator|] == ListSeparator then [""] + Split(s[|ListSeparator|..])
    else var rest := Split(s[1..]); [[s[0]] + rest[0]] + rest[1..]
  }

  // ----- Lemmas -----

  /** Stripping a string that has no whitespace at either end changes nothing. */
  lemma StripUnchanged(s: string)
    requires s == [] || (!IsSpace(s[0]) && !IsSpace(s[|s| - 1]))
    ensures Strip(s) == s
  {
    var b := StripBounds(s);
    if s != [] {
      assert b.0 == 0;
      assert b.1 == |s|;
    }
  }

  /** Lowering commutes with slicing. */
  lemma LowerSlice(s: string, a: nat, b: nat)
    requires a <= b <= |s|
    ensures Lower(s[a..b]) == Lower(s)[a..b]
  {
  }

  /** Lowering keeps whitespace in place, so `strip` and `lower` commute. */
  lemma LowerStripCommute(s: string)
    ensures Strip(Lower(s)) == Lower(Strip(s))
  {
    var t := Lower(s);
    LowerSameSpaces(s);
    StripBoundsAgree(s, t);
    var b := StripBounds(s);
    LowerSlice(s, b.0, b.1);
  }

  lemma LowerSameSpaces(s: string)
    ensures SameSpaces(s, Lower(s))
  {
    var t := Lower(s);
    forall i | 0 <= i < |s|
      ensures IsSpace(s[i]) == IsSpace(t[i])
    {
      assert t[i] == LowerChar(s[i]);
    }
  }

  /** Texts with whitespace at the same positions are stripped at the same bounds. */
  lemma StripBoundsAgree(s: string, t: string)
    requires SameSpaces(s, t)
    ensures StripBounds(s) == StripBounds(t)
  {
    LeadingSpacesAgree(s, t);
    var a := LeadingSpaces(s);
    assert SameSpaces(s[a..], t[a..]);
    TrailingSpacesAgree(s[a..], t[a..]);
  }

  /** `s` and `t` have whitespace at the same positions. */
  predicate SameSpaces(s: string, t: string) {
    |s| == |t| && forall i :: 0 <= i < |s| ==> IsSpace(s[i]) == IsSpace(t[i])
  }

  lemma {:induction false} LeadingSpacesAgree(s: string, t: string)
    requires SameSpaces(s, t)
    ensures LeadingSpaces(s) == LeadingSpaces(t)
    decreases |s|
  {
    if s != [] && IsSpace(s[0]) {
      assert SameSpaces(s[1..], t[1..]);
      LeadingSpacesAgree(s[1..], t[1..]);
    }
  }

  lemma {:induction false} TrailingSpacesAgree(s: string, t: string)
    requires SameSpaces(s, t)
    ensures TrailingSpaces(s) == TrailingSpaces(t)
    decreases |s|
  {
    if s != [] && IsSpace(s[|s| - 1]) {
      assert SameSpaces(s[..|s| - 1], t[..|t| - 1]);
      TrailingSpacesAgree(s[..|s| - 1], t[..|t| - 1]);
    }
  }

  /** Lowering a string twice is lowering it once; a string with no upper-case letter is already lowered. */
  lemma LowerIdempotent(s: string)
    ensures Lower(Lower(s)) == Lower(s)
    ensures (forall i :: 0 <= i < |s| ==> !IsUpper(s[i])) ==> Lower(s) == s
  {
  }

  /** A filter that keeps every character changes nothing. */
  lemma {:induction false} FilterKeepsAll(s: string, keep: char -> bool)
    requires forall i :: 0 <= i < |s| ==> keep(s[i])
    ensures Filter(s, keep) == s
    decreases |s|
  {
    if s != [] {
      FilterKeepsAll(s[1..], keep);
    }
  }

  /** A filter whose verdict does not change under lowering commutes with lowering. */
  lemma {:induction false} FilterLowerCommute(s: string, keep: char -> bool)
    requires forall c :: keep(LowerChar(c)) == keep(c)
    ensures Filter(Lower(s), keep) == Lower(Filter(s, keep))
    decreases |s|
  {
    if s != [] {
      FilterLowerCommute(s[1..], keep);
      assert Lower(s) == [LowerChar(s[0])] + Lower(s[1..]);
      assert keep(LowerChar(s[0])) == keep(s[0]);
      if keep(s[0]) {
        assert Filter(s, keep) == [s[0]] + Filter(s[1..], keep);
        assert Lower([s[0]] + Filter(s[1..], keep)) == [LowerChar(s[0])] + Lower(Filter(s[1..], keep));
      }
    }
  }

  /** `replace` leaves a prefix alone when the pattern's first character does not occur in it. */
  lemma {:induction false} ReplaceAllSkipsPrefix(x: string, y: string, pat: string, rep: string)
    requires |pat| > 0
    requires forall i :: 0 <= i < |x| ==> x[i] != pat[0]
    ensures ReplaceAll(x + y, pat, rep) == x + ReplaceAll(y, pat, rep)
    decreases |x|
  {
    if x != [] {
      var s := x + y;
      if |s| < |pat| {
        assert ReplaceAll(y, pat, rep) == y;
      } else {
        assert s[..|pat|][0] == x[0];
        assert ReplaceAll(s, pat, rep) == [s[0]] + ReplaceAll(s[1..], pat, rep);
        assert s[1..] == x[1..] + y;
        ReplaceAllSkipsPrefix(x[1..], y, pat, rep);
        assert [x[0]] + x[1..] == x;
      }
    } else {
      assert x + y == y;
    }
  }

  /** Replacing a one-character pattern rewrites exactly the characters equal to it, keeping the length. */
  lemma {:induction false} ReplaceChar(s: string, c: char, d: char)
    ensures |ReplaceAll(s, [c], [d])| == |s|
    ensures forall i :: 0 <= i < |s| ==> ReplaceAll(s, [c], [d])[i] == (if s[i] == c then d else s[i])
    decreases |s|
  {
    if s != [] {
      ReplaceChar(s[1..], c, d);
      var r := ReplaceAll(s[1..], [c], [d]);
      if s[..1] == [c] {
        assert ReplaceAll(s, [c], [d]) == [d] + r;
      } else {
        assert ReplaceAll(s, [c], [d]) == [s[0]] + r;
      }
    }
  }

  lemma {:induction false} LeadingSpacesPad(p: string, m: string)
    requires forall i :: 0 <= i < |p| ==> IsSpace(p[i])
    requires m != [] && !IsSpace(m[0])
    ensures LeadingSpaces(p + m) == |p|
    decreases |p|
  {
    if p == [] {
      assert p + m == m;
    } else {
      assert (p + m)[1..] == p[1..] + m;
      LeadingSpacesPad(p[1..], m);
    }
  }

  lemma {:induction false} TrailingSpacesPad(m: string, p: string)
    requires forall i :: 0 <= i < |p| ==> IsSpace(p[i])
    requires m != [] && !IsSpace(m[|m| - 1])
    ensures TrailingSpaces(m + p) == |p|
    decreases |p|
  {
    if p == [] {
      assert m + p == m;
    } else {
      var q := p[..|p| - 1];
      assert (m + p)[..|m + p| - 1] == m + q;
      TrailingSpacesPad(m, q);
    }
  }

  /** Whitespace padding around a text with non-space ends is exactly what stripping removes. */
  lemma StripPadded(p1: string, m: string, p2: string)
    requires forall i :: 0 <= i < |p1| ==> IsSpace(p1[i])
    requires forall i :: 0 <= i < |p2| ==> IsSpace(p2[i])
    requires m != [] && !IsSpace(m[0]) && !IsSpace(m[|m| - 1])
    ensures Strip(p1 + m + p2) == m
  {
    var x := p1 + m + p2;
    assert x == p1 + (m + p2);
    LeadingSpacesPad(p1, m + p2);
    assert x[|p1|..] == m + p2;
    TrailingSpacesPad(m, p2);
    assert x[|p1|..|p1| + |m|] == m;
  }

  lemma LowerAppend(a: string, b: string)
    ensures Lower(a + b) == Lower(a) + Lower(b)
  {
    assert forall i :: 0 <= i < |a + b| ==> Lower(a + b)[i] == (Lower(a) + Lower(b))[i];
  }

  const Fence := "```"

  /** No three consecutive backticks. */
  predicate NoFence(s: string) {
    forall i :: 0 <= i < |s| - 2 ==> !(s[i] == '`' && s[i + 1] == '`' && s[i + 2] == '`')
  }

  lemma NoFenceNotContains(s: string)
    requires NoFence(s)
    ensures !Contains(s, Fence)
  {
    forall k | 0 <= k
      ensures !At(s, Fence, k)
    {
      if k <= |s| - 3 {
        assert !(s[k] == '`' && s[k + 1] == '`' && s[k + 2] == '`');
      assert s[k..k + 3][0] == s[k] && s[k..k + 3][1] == s[k + 1] && s[k..k + 3][2] == s[k + 2];
      }
    }
  }

  /** A character other than a backtick survives at the head of `s.replace("```", "")`. */
  lemma RemoveFenceHead(s: string)
    requires s != [] && s[0] != '`'
    ensures ReplaceAll(s, Fence, "") != [] && ReplaceAll(s, Fence, "")[0] == s[0]
  {
    if |s| >= 3 {
      assert s[..3][0] == s[0];
    }
  }

  /**
   * After `s.replace("```", "")` no three backticks remain: each run of backticks loses
   * whole triples and keeps fewer than three, and runs are never joined.
   */
  lemma {:induction false} RemoveFencesLeavesNone(s: string)
    ensures NoFence(ReplaceAll(s, Fence, ""))
    decreases |s|
  {
    if |s| < 3 {
    } else if s[..3] == Fence {
      RemoveFencesLeavesNone(s[3..]);
    } else {
      RemoveFencesLeavesNone(s[1..]);
      var t := ReplaceAll(s[1..], Fence, "");
      var r := ReplaceAll(s, Fence, "");
      assert r == [s[0]] + t;
      if s[0] == '`' {
        if s[1] != '`' {
          RemoveFenceHead(s[1..]);
        } else {
          assert s[2] != '`' by {
            assert s[..3] == [s[0], s[1], s[2]];
          }
          var u := s[1..];
          if |u| < 3 {
            assert t == u;
          } else {
            assert u[..3][1] == s[2];
            assert t == [u[0]] + ReplaceAll(u[1..], Fence, "");
            RemoveFenceHead(u[1..]);
          }
          assert t[1] != '`';
        }
      }
      assert r[1..] == t;
    }
  }

  /** A slice of a string without three consecutive backticks has none either. */
  lemma NoFenceSlice(s: string, a: nat, b: nat)
    requires a <= b <= |s| && NoFence(s)
    ensures NoFence(s[a..b])
  {
    var u := s[a..b];
    forall i | 0 <= i < |u| - 2
      ensures !(u[i] == '`' && u[i + 1] == '`' && u[i + 2] == '`')
    {
      assert u[i] == s[a + i] && u[i + 1] == s[a + i + 1] && u[i + 2] == s[a + i + 2];
    }
  }

  /** `split(", ")` undoes `", ".join` when no item contains a comma. */
  lemma {:induction false} SplitJoin(xs: seq<string>)
    requires xs != []
    requires forall k, i :: 0 <= k < |xs| && 0 <= i < |xs[k]| ==> xs[k][i] != ','
    ensures Split(Join(xs)) == xs
    decreases |xs|
  {
    if |xs| == 1 {
      SplitItem(xs[0]);
    } else {
      SplitJoin(xs[1..]);
      SplitAtFirstSeparator(xs[0], Join(xs[1..]));
      assert xs == [xs[0]] + xs[1..];
    }
  }

  lemma {:induction false} SplitItem(x: string)
    requires forall i :: 0 <= i < |x| ==> x[i] != ','
    ensures Split(x) == [x]
    decreases |x|
  {
    if |x| >= |ListSeparator| {
      assert x[..2][0] == x[0];
      SplitItem(x[1..]);
      assert [x[0]] + x[1..] == x;
    }
  }

  lemma {:induction false} SplitAtFirstSeparator(x: string, t: string)
    requires forall i :: 0 <= i < |x| ==> x[i] != ','
    ensures Split(x + ListSeparator + t) == [x] + Split(t)
    decreases |x|
  {
    var s := x + ListSeparator + t;
    if x == [] {
      assert s[..2] == ListSeparator;
      assert s[2..] == t;
    } else {
      assert s[..2][0] == x[0];
      assert s[1..] == x[1..] + ListSeparator + t;
      SplitAtFirstSeparator(x[1..], t);
      assert [x[0]] + x[1..] == x;
    }
  }
}
