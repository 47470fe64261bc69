/**
 * The meal-image cache pipeline: a deterministic storage key derived from the meal name,
 * a lookup of that key's public URL, image generation, and a mandatory upload under the
 * same key.
 */
module ImageHelper {
  import opened Wrappers
  import opened Text
  import opened External

  /** The bucket named both by `SUPABASE_BUCKET` and by the literal passed to `from_`. */
  const MealBucket := "meal_images"

  /** `\w` on ASCII text: letters, digits and the underscore. */
  predicate IsWordChar(c: char) { IsUpper(c) || IsLower(c) || IsDigit(c) || c == '_' }

  /** The characters `[^\w\s-]` does not match, i.e. those the first substitution keeps. */
  predicate KeptBySlug(c: char) { IsWordChar(c) || IsSpace(c) || c == '-' }

  /** The class `[\s_-]` of the second substitution. */
  predicate IsSeparator(c: char) { IsSpace(c) || c == '_' || c == '-' }

  /** The characters a slug may contain. */
  predicate IsSlugChar(c: char) { IsLower(c) || IsDigit(c) || c == '_' }

  /** `.encode("ascii", "ignore").decode("ascii")`: drop every non-ASCII character. */
  function AsciiFold(s: string): string {
    Filter(s, IsAscii)
  }

  /** `re.sub(r"[^\w\s-]", "", s)`. */
  function DropPunctuation(s: string): string {
    Filter(s, KeptBySlug)
  }

  /** The rest of `s` after its leading run of separators. */
  function SkipSeparators(s: string): (r: string)
    ensures |r| <= |s| && r == s[|s| - |r|..]
    ensures r == [] || !IsSeparator(r[0])
    ensures forall i :: 0 <= i < |s| - |r| ==> IsSeparator(s[i])
  {
    if s != [] && IsSeparator(s[0]) then SkipSeparators(s[1..]) else s
  }

  /** `re.sub(r"[\s_-]+", "_", s)`: each maximal run of separators becomes one `_`. */
  function CollapseSeparators(s: string): string
    decreases |s|
  {
    if s == [] then []
    else if IsSeparator(s[0]) then "_" + CollapseSeparators(SkipSeparators(s[1..]))
    else [s[0]] + CollapseSeparators(s[1..])
  }

  /** The collapse starts with `_` exactly when the input starts with a separator, else with the input's first character. */
  lemma CollapseHead(s: string)
    requires s != []
    ensures CollapseSeparators(s) != []
    ensures CollapseSeparators(s)[0] == (if IsSeparator(s[0]) then '_' else s[0])
  {
  }

  /** Out of slug characters and separators the collapse makes slug characters only. */
  lemma {:induction false} CollapseSlugChars(s: string)
    requires forall i :: 0 <= i < |s| ==> IsSlugChar(s[i]) || IsSeparator(s[i])
    ensures forall i :: 0 <= i < |CollapseSeparators(s)| ==> IsSlugChar(CollapseSeparators(s)[i])
    decreases |s|
  {
    if s != [] {
      if IsSeparator(s[0]) {
        var t := SkipSeparators(s[1..]);
        assert forall i :: 0 <= i < |t| ==> t[i] == s[|s| - |t| + i];
        CollapseSlugChars(t);
      } else {
        CollapseSlugChars(s[1..]);
      }
    }
  }

  /** After the collapse no two separators are adjacent. */
  lemma {:induction false} CollapseNoAdjacent(s: string)
    ensures var r := CollapseSeparators(s);
      forall i :: 0 <= i < |r| - 1 ==> !(IsSeparator(r[i]) && IsSeparator(r[i + 1]))
    decreases |s|
  {
    if s != [] {
      if IsSeparator(s[0]) {
        var t := SkipSeparators(s[1..]);
        CollapseNoAdjacent(t);
        if t != [] {
          CollapseHead(t);
        }
      } else {
        CollapseNoAdjacent(s[1..]);
        var r := CollapseSeparators(s);
        assert r == [s[0]] + CollapseSeparators(s[1..]);
        assert r[1..] == CollapseSeparators(s[1..]);
      }
    }
  }

  /** A slug body: slug characters only, and never two underscores in a row. */
  predicate IsSlug(r: string) {
    (forall i :: 0 <= i < |r| ==> IsSlugChar(r[i])) &&
    (forall i :: 0 <= i < |r| - 1 ==> !(r[i] == '_' && r[i + 1] == '_'))
  }

  /** The slug body: fold, drop punctuation, strip, lower-case, collapse separators. */
  function Slug(name: string): (r: string)
    ensures IsSlug(r)
  {
    var kept := DropPunctuation(AsciiFold(name));
    LoweredKeptChars(kept);
    CollapsedIsSlug(Lower(Strip(kept)));
    CollapseSeparators(Lower(Strip(kept)))
  }

  /** Collapsing a string of slug characters and separators yields a slug. */
  lemma CollapsedIsSlug(s: string)
    requires forall i :: 0 <= i < |s| ==> IsSlugChar(s[i]) || IsSeparator(s[i])
    ensures IsSlug(CollapseSeparators(s))
  {
    CollapseSlugChars(s);
    CollapseNoAdjacent(s);
  }

  /** After the first substitution, stripping and lower-casing leave only slug characters and separators. */
  lemma LoweredKeptChars(kept: string)
    requires forall i :: 0 <= i < |kept| ==> KeptBySlug(kept[i])
    ensures var lowered := Lower(Strip(kept));
      forall i :: 0 <= i < |lowered| ==> IsSlugChar(lowered[i]) || IsSeparator(lowered[i])
  {
    var b := StripBounds(kept);
    var stripped := Strip(kept);
    assert forall i :: 0 <= i < |stripped| ==> stripped[i] == kept[b.0 + i];
  }

  /** `get_deterministic_filename`: the slug followed by `.png`. */
  function DeterministicFilename(name: string): (r: string)
    ensures |r| >= 4 && r[|r| - 4..] == ".png"
    ensures forall i :: 0 <= i < |r| - 4 ==> IsSlugChar(r[i])
    ensures forall i :: 0 <= i < |r| - 5 ==> !(r[i] == '_' && r[i + 1] == '_')
  {
    Slug(name) + ".png"
  }

  /** A string of slug characters with no two adjacent separators is left alone by the collapse. */
  lemma {:induction false} CollapseFixpoint(s: string)
    requires forall i :: 0 <= i < |s| ==> IsSlugChar(s[i])
    requires forall i :: 0 <= i < |s| - 1 ==> !(s[i] == '_' && s[i + 1] == '_')
    ensures CollapseSeparators(s) == s
    decreases |s|
  {
    if s != [] {
      CollapseFixpoint(s[1..]);
      if IsSeparator(s[0]) {
        assert s[0] == '_';
        assert SkipSeparators(s[1..]) == s[1..];
      }
    }
  }

  /** The slug is idempotent: slugging a slug body returns it unchanged. */
  lemma SlugIdempotent(name: string)
    ensures Slug(Slug(name)) == Slug(name)
  {
    var b := Slug(name);
    assert forall i :: 0 <= i < |b| ==> IsAscii(b[i]) && KeptBySlug(b[i]) && !IsSpace(b[i]) && !IsUpper(b[i]);
    FilterKeepsAll(b, IsAscii);
    assert AsciiFold(b) == b;
    FilterKeepsAll(b, KeptBySlug);
    assert DropPunctuation(b) == b;
    StripUnchanged(b);
    LowerIdempotent(b);
    assert Lower(Strip(DropPunctuation(AsciiFold(b)))) == b;
    CollapseFixpoint(b);
  }

  /** Lower-casing the name first does not change its slug. */
  lemma SlugOfLower(name: string)
    ensures Slug(Lower(name)) == Slug(name)
  {
    FilterLowerCommute(name, IsAscii);
    var folded := AsciiFold(name);
    FilterLowerCommute(folded, KeptBySlug);
    var kept := DropPunctuation(folded);
    LowerStripCommute(kept);
    LowerIdempotent(Strip(kept));
  }

  /** The slug ignores case: names that agree after lower-casing have the same key. */
  lemma SlugCaseInsensitive(a: string, b: string)
    requires Lower(a) == Lower(b)
    ensures DeterministicFilename(a) == DeterministicFilename(b)
  {
    SlugOfLower(a);
    SlugOfLower(b);
  }

  lemma {:induction false} FilterAppend(a: string, b: string, keep: char -> bool)
    ensures Filter(a + b, keep) == Filter(a, keep) + Filter(b, keep)
    decreases |a|
  {
    if a == [] {
      assert a + b == b;
    } else {
      assert (a + b)[1..] == a[1..] + b;
      FilterAppend(a[1..], b, keep);
    }
  }

  /** A prefix without separators passes through the collapse untouched. */
  lemma {:induction false} CollapsePrefix(a: string, t: string)
    requires forall i :: 0 <= i < |a| ==> !IsSeparator(a[i])
    ensures CollapseSeparators(a + t) == a + CollapseSeparators(t)
    decreases |a|
  {
    if a == [] {
      assert a + t == t;
    } else {
      assert (a + t)[1..] == a[1..] + t;
      CollapsePrefix(a[1..], t);
    }
  }

  lemma {:induction false} FilterDropsAll(s: string, keep: char -> bool)
    requires forall i :: 0 <= i < |s| ==> !keep(s[i])
    ensures Filter(s, keep) == []
    decreases |s|
  {
    if s != [] {
      FilterDropsAll(s[1..], keep);
    }
  }

  /** Punctuation anywhere in the name does not change its slug. */
  lemma SlugDropsPunctuation(a: string, p: string, b: string)
    requires forall i :: 0 <= i < |p| ==> IsAscii(p[i]) && !KeptBySlug(p[i])
    ensures Slug(a + p + b) == Slug(a + b)
  {
    FilterAppend(a + p, b, IsAscii);
    FilterAppend(a, p, IsAscii);
    FilterAppend(a, b, IsAscii);
    FilterKeepsAll(p, IsAscii);
    var fa, fb := AsciiFold(a), AsciiFold(b);
    assert AsciiFold(a + p + b) == fa + p + fb;
    FilterAppend(fa + p, fb, KeptBySlug);
    FilterAppend(fa, p, KeptBySlug);
    FilterAppend(fa, fb, KeptBySlug);
    FilterDropsAll(p, KeptBySlug);
    assert DropPunctuation(fa + p + fb) == DropPunctuation(fa) + DropPunctuation(fb);
  }

  lemma {:induction false} SkipSeparatorsPrefix(g: string, w: string)
    requires forall i :: 0 <= i < |g| ==> IsSeparator(g[i])
    requires w != [] && !IsSeparator(w[0])
    ensures SkipSeparators(g + w) == w
    decreases |g|
  {
    if g == [] {
      assert g + w == w;
    } else {
      assert (g + w)[0] == g[0] && IsSeparator(g[0]);
      assert (g + w)[1..] == g[1..] + w;
      SkipSeparatorsPrefix(g[1..], w);
    }
  }

  /** An ASCII word: letters and digits, at least one. */
  predicate IsWord(w: string) {
    w != [] && forall i :: 0 <= i < |w| ==> IsUpper(w[i]) || IsLower(w[i]) || IsDigit(w[i])
  }

  /** A lower-cased ASCII word: letters and digits only. */
  lemma LowerOfWord(w: string)
    requires IsWord(w)
    ensures var l := Lower(w); l != [] && forall i :: 0 <= i < |l| ==> IsLower(l[i]) || IsDigit(l[i])
  {
  }

  /** ASCII text that the first substitution keeps whole. */
  predicate KeptText(s: string) {
    forall i :: 0 <= i < |s| ==> IsAscii(s[i]) && KeptBySlug(s[i])
  }

  lemma KeptTextAppend(a: string, b: string)
    requires KeptText(a) && KeptText(b)
    ensures KeptText(a + b)
  {
    assert forall i :: |a| <= i < |a + b| ==> (a + b)[i] == b[i - |a|];
  }

  /** Folding and dropping punctuation leave kept ASCII text unchanged. */
  lemma KeptTextUnchanged(x: string)
    requires KeptText(x)
    ensures DropPunctuation(AsciiFold(x)) == x
  {
    FilterKeepsAll(x, IsAscii);
    FilterKeepsAll(x, KeptBySlug);
  }

  /** Separators are never upper-case, so lower-casing leaves the gap between words alone. */
  lemma LowerAroundGap(w1: string, gap: string, w2: string)
    requires forall i :: 0 <= i < |gap| ==> IsSeparator(gap[i])
    ensures Lower(w1 + gap + w2) == Lower(w1) + gap + Lower(w2)
  {
    assert Lower(gap) == gap by {
      assert forall i :: 0 <= i < |gap| ==> !IsUpper(gap[i]);
      LowerIdempotent(gap);
    }
    LowerAppend(w1, gap);
    LowerAppend(w1 + gap, w2);
  }

  /** Stripping removes exactly the whitespace padding around two words. */
  lemma StripAroundWords(p1: string, w1: string, gap: string, w2: string, p2: string)
    requires IsWord(w1) && IsWord(w2)
    requires forall i :: 0 <= i < |p1| ==> IsSpace(p1[i])
    requires forall i :: 0 <= i < |p2| ==> IsSpace(p2[i])
    ensures Strip(p1 + w1 + gap + w2 + p2) == w1 + gap + w2
  {
    var m := w1 + gap + w2;
    assert p1 + w1 + gap + w2 + p2 == p1 + m + p2;
    assert m[0] == w1[0] && m[|m| - 1] == w2[|w2| - 1];
    StripPadded(p1, m, p2);
  }

  /** The first four steps of the slug leave a padded two-word text as its lower-cased core. */
  lemma PreparedWords(p1: string, w1: string, gap: string, w2: string, p2: string)
    requires IsWord(w1) && IsWord(w2)
    requires gap != [] && forall i :: 0 <= i < |gap| ==> IsAscii(gap[i]) && IsSeparator(gap[i])
    requires forall i :: 0 <= i < |p1| ==> IsAscii(p1[i]) && IsSpace(p1[i])
    requires forall i :: 0 <= i < |p2| ==> IsAscii(p2[i]) && IsSpace(p2[i])
    ensures Lower(Strip(DropPunctuation(AsciiFold(p1 + w1 + gap + w2 + p2)))) == Lower(w1) + gap + Lower(w2)
  {
    assert KeptText(p1) && KeptText(w1) && KeptText(gap) && KeptText(w2) && KeptText(p2);
    KeptTextAppend(p1, w1);
    KeptTextAppend(p1 + w1, gap);
    KeptTextAppend(p1 + w1 + gap, w2);
    KeptTextAppend(p1 + w1 + gap + w2, p2);
    KeptTextUnchanged(p1 + w1 + gap + w2 + p2);
    StripAroundWords(p1, w1, gap, w2, p2);
    LowerAroundGap(w1, gap, w2);
  }

  /** A run of separators in front of a lower-case word collapses to one underscore. */
  lemma CollapseGap(gap: string, l: string)
    requires l != [] && forall i :: 0 <= i < |l| ==> IsLower(l[i]) || IsDigit(l[i])
    requires gap != [] && forall i :: 0 <= i < |gap| ==> IsSeparator(gap[i])
    ensures CollapseSeparators(gap + l) == "_" + l
  {
    var t := gap + l;
    assert t[0] == gap[0] && t[1..] == gap[1..] + l;
    WordCharsAreSlugChars(l);
    SkipSeparatorsPrefix(gap[1..], l);
    CollapseFixpoint(l);
  }

  lemma WordCharsAreSlugChars(l: string)
    requires forall i :: 0 <= i < |l| ==> IsLower(l[i]) || IsDigit(l[i])
    ensures forall i :: 0 <= i < |l| ==> IsSlugChar(l[i]) && !IsSeparator(l[i]) && l[i] != '_'
  {
  }

  /** A run of separators between two lower-case words collapses to one underscore. */
  lemma CollapseWords(l1: string, gap: string, l2: string)
    requires l1 != [] && forall i :: 0 <= i < |l1| ==> IsLower(l1[i]) || IsDigit(l1[i])
    requires l2 != [] && forall i :: 0 <= i < |l2| ==> IsLower(l2[i]) || IsDigit(l2[i])
    requires gap != [] && forall i :: 0 <= i < |gap| ==> IsSeparator(gap[i])
    ensures CollapseSeparators(l1 + gap + l2) == l1 + "_" + l2
  {
    assert l1 + gap + l2 == l1 + (gap + l2);
    CollapsePrefix(l1, gap + l2);
    CollapseGap(gap, l2);
    assert l1 + ("_" + l2) == l1 + "_" + l2;
  }

  /**
   * Two words with any run of spaces, underscores or hyphens between them and whitespace
   * around them become the lower-cased words joined by a single underscore.
   */
  lemma SlugOfWords(p1: string, w1: string, gap: string, w2: string, p2: string)
    requires IsWord(w1) && IsWord(w2)
    requires gap != [] && forall i :: 0 <= i < |gap| ==> IsAscii(gap[i]) && IsSeparator(gap[i])
    requires forall i :: 0 <= i < |p1| ==> IsAscii(p1[i]) && IsSpace(p1[i])
    requires forall i :: 0 <= i < |p2| ==> IsAscii(p2[i]) && IsSpace(p2[i])
    ensures Slug(p1 + w1 + gap + w2 + p2) == Lower(w1) + "_" + Lower(w2)
  {
    PreparedWords(p1, w1, gap, w2, p2);
    LowerOfWord(w1);
    LowerOfWord(w2);
    CollapseWords(Lower(w1), gap, Lower(w2));
  }

  lemma LowerWord(w: string, l: string)
    requires |w| == |l| && forall i :: 0 <= i < |w| ==> LowerChar(w[i]) == l[i]
    ensures Lower(w) == l
  {
  }

  /** Two words separated by a run of separators name the file of their lower-cased words joined by `_`. */
  lemma TwoWordFilename(w1: string, gap: string, w2: string, l1: string, l2: string)
    requires IsWord(w1) && IsWord(w2) && Lower(w1) == l1 && Lower(w2) == l2
    requires gap != [] && forall i :: 0 <= i < |gap| ==> IsAscii(gap[i]) && IsSeparator(gap[i])
    ensures DeterministicFilename(w1 + gap + w2) == l1 + "_" + l2 + ".png"
  {
    assert [] + w1 == w1;
    assert w1 + gap + w2 + [] == w1 + gap + w2;
    SlugOfWords([], w1, gap, w2, []);
  }

  lemma SpacedWordsFilename(w1: string, w2: string, l1: string, l2: string)
    requires IsWord(w1) && IsWord(w2) && Lower(w1) == l1 && Lower(w2) == l2
    ensures DeterministicFilename(w1 + " " + w2) == l1 + "_" + l2 + ".png"
  {
    TwoWordFilename(w1, " ", w2, l1, l2);
  }

  // The examples below take their literals as parameters pinned by `requires`: the verifier
  // then reasons about them through the general lemmas above, rather than unfolding the
  // recursive definitions over the literal text of a name.

  /** Upper case is folded: "CHICKEN CURRY" becomes "chicken_curry.png". */
  lemma UpperCaseExample(name: string, w1: string, w2: string, l1: string, l2: string)
    requires name == "CHICKEN CURRY" && w1 == "CHICKEN" && w2 == "CURRY"
    requires l1 == "chicken" && l2 == "curry"
    ensures DeterministicFilename(name) == "chicken_curry.png"
  {
    LowerWord(w1, l1);
    LowerWord(w2, l2);
    assert name == w1 + " " + w2;
    SpacedWordsFilename(w1, w2, l1, l2);
  }

  /** The words of the examples below, and what they lower-case to. */
  lemma ChickenCurryWords(w1: string, w2: string, l1: string, l2: string)
    requires w1 == "Chicken" && w2 == "Curry" && l1 == "chicken" && l2 == "curry"
    ensures IsWord(w1) && IsWord(w2) && Lower(w1) == l1 && Lower(w2) == l2
    ensures l1 + "_" + l2 + ".png" == "chicken_curry.png"
  {
    LowerWord(w1, l1);
    LowerWord(w2, l2);
  }

  /** A mixed run of separators collapses to one `_`: "Chicken-_ Curry" becomes "chicken_curry.png". */
  lemma MixedSeparatorsExample(name: string, w1: string, gap: string, w2: string, l1: string, l2: string)
    requires name == "Chicken-_ Curry" && w1 == "Chicken" && gap == "-_ " && w2 == "Curry"
    requires l1 == "chicken" && l2 == "curry"
    ensures DeterministicFilename(name) == "chicken_curry.png"
  {
    ChickenCurryWords(w1, w2, l1, l2);
    assert name == w1 + gap + w2;
    TwoWordFilename(w1, gap, w2, l1, l2);
  }

  /** Trailing punctuation does not change the file name. */
  lemma TrailingMarksFilename(core: string, marks: string)
    requires forall i :: 0 <= i < |marks| ==> IsAscii(marks[i]) && !KeptBySlug(marks[i])
    ensures DeterministicFilename(core + marks) == DeterministicFilename(core)
  {
    assert core + marks == core + marks + [];
    SlugDropsPunctuation(core, marks, []);
    assert core + [] == core;
  }

  /** Punctuation is dropped: "Chicken Curry!!" has the key of "Chicken Curry". */
  lemma PunctuationExample(name: string, w1: string, w2: string, marks: string, l1: string, l2: string)
    requires name == "Chicken Curry!!" && w1 == "Chicken" && w2 == "Curry" && marks == "!!"
    requires l1 == "chicken" && l2 == "curry"
    ensures DeterministicFilename(name) == "chicken_curry.png"
  {
    ChickenCurryWords(w1, w2, l1, l2);
    assert name == w1 + " " + w2 + marks;
    TrailingMarksFilename(w1 + " " + w2, marks);
    SpacedWordsFilename(w1, w2, l1, l2);
  }

  /** Padding is stripped and inner runs collapse: "  Chicken   Curry  " becomes "chicken_curry.png". */
  lemma PaddingExample(name: string, pad: string, w1: string, gap: string, w2: string, l1: string, l2: string)
    requires name == "  Chicken   Curry  " && pad == "  " && w1 == "Chicken" && gap == "   " && w2 == "Curry"
    requires l1 == "chicken" && l2 == "curry"
    ensures DeterministicFilename(name) == "chicken_curry.png"
  {
    ChickenCurryWords(w1, w2, l1, l2);
    assert name == pad + w1 + gap + w2 + pad;
    PaddedWordsFilename(pad, w1, gap, w2, pad, l1, l2);
  }

  lemma PaddedWordsFilename(p1: string, w1: string, gap: string, w2: string, p2: string, l1: string, l2: string)
    requires IsWord(w1) && IsWord(w2) && Lower(w1) == l1 && Lower(w2) == l2
    requires gap != [] && forall i :: 0 <= i < |gap| ==> IsAscii(gap[i]) && IsSeparator(gap[i])
    requires forall i :: 0 <= i < |p1| ==> IsAscii(p1[i]) && IsSpace(p1[i])
    requires forall i :: 0 <= i < |p2| ==> IsAscii(p2[i]) && IsSpace(p2[i])
    ensures DeterministicFilename(p1 + w1 + gap + w2 + p2) == l1 + "_" + l2 + ".png"
  {
    SlugOfWords(p1, w1, gap, w2, p2);
  }

  /** The public URL under which the meal's image is both looked up and published. */
  function MealImageUrl(base: string, mealName: string): (u: string)
    ensures u == PublicUrl(base, MealBucket, DeterministicFilename(mealName))
    ensures |u| > |base| && u[..|base|] == base
  {
    PublicUrl(base, MealBucket, DeterministicFilename(mealName))
  }

  /** Names that agree after lower-casing share one cache entry. */
  lemma SharedCacheEntry(base: string, a: string, b: string)
    requires Lower(a) == Lower(b)
    ensures MealImageUrl(base, a) == MealImageUrl(base, b)
  {
    SlugCaseInsensitive(a, b);
  }

  /** `check_supabase_image`: one GET of the meal's URL; a 200 answer returns that URL. */
  method CheckSupabaseImage(base: string, mealName: string, web: Web) returns (url: Option<string>, calls: seq<Call>)
    ensures calls == [HttpGet(MealImageUrl(base, mealName))]
    ensures url.Some? <==> web.get(MealImageUrl(base, mealName)) == 200
    ensures url.Some? ==> url.value == MealImageUrl(base, mealName)
  {
    var imageUrl := MealImageUrl(base, mealName);
    var status := web.get(imageUrl);
    calls := [HttpGet(imageUrl)];
    if status == 200 {
      return Some(imageUrl), calls;
    }
    return None, calls;
  }

  /** `upload_to_supabase`: one upload under the meal's key; only a clean success yields its URL. */
  method UploadToSupabase(base: string, mealName: string, data: ImageData, web: Web) returns (url: Option<string>, calls: seq<Call>)
    ensures calls == [StorageUpload(MealBucket, DeterministicFilename(mealName), data)]
    ensures url.Some? <==> web.upload(MealBucket, DeterministicFilename(mealName), data) == Uploaded
    ensures url.Some? ==> url.value == MealImageUrl(base, mealName)
  {
    var fileName := DeterministicFilename(mealName);
    var reply := web.upload(MealBucket, fileName, data);
    calls := [StorageUpload(MealBucket, fileName, data)];
    match reply
    case StorageError => url := None;
    case UploadRaised => url := None;
    case Uploaded => url := Some(MealImageUrl(base, mealName));
  }

  const MealPromptHead := "A realistic, high-quality photo of "
  const MealPromptTail := " served beautifully on a plate. Clean background."

  /** The image prompt names the meal, verbatim, between a fixed head and tail. */
  function MealImagePrompt(mealName: string): (p: string)
    ensures |p| == |MealPromptHead| + |mealName| + |MealPromptTail|
    ensures p[|MealPromptHead|..|MealPromptHead| + |mealName|] == mealName
  {
    MealPromptHead + mealName + MealPromptTail
  }

  /** Different meals are never sent under the same prompt. */
  lemma MealImagePromptInjective(a: string, b: string)
    requires MealImagePrompt(a) == MealImagePrompt(b)
    ensures a == b
  {
    assert |a| == |b|;
  }

  /** `generate_image_from_gemini`: one image-model call; the first part with inline data wins. */
  method GenerateImageFromGemini(mealName: string, web: Web) returns (data: Option<ImageData>, calls: seq<Call>)
    ensures calls == [GenerateContent(ImageModel, MealImagePrompt(mealName))]
    ensures data == FirstInline(web.generate(ImageModel, MealImagePrompt(mealName)))
  {
    var prompt := MealImagePrompt(mealName);
    var parts := web.generate(ImageModel, prompt);
    calls := [GenerateContent(ImageModel, prompt)];
    data := FirstInlineData(parts);
  }

  /** What `generate_meal_image` returns or raises: `{"image_url": url}` or an `HTTPException`. */
  datatype MealImageResponse = ImageUrl(url: string) | HttpError(status: int, detail: string)

  const GenerationFailed := "Gemini failed to generate image"
  const UploadFailed := "Image upload failed"

  /** Python truthiness of the generator's result. */
  predicate Generated(data: Option<ImageData>) {
    data.Some? && data.value.Truthy()
  }

  /** `generate_meal_image`: cache lookup, then generation, then a mandatory upload under the same key. */
  method GenerateMealImage(base: string, mealName: string, web: Web) returns (r: MealImageResponse, calls: seq<Call>)
    ensures var url := MealImageUrl(base, mealName);
      var key := DeterministicFilename(mealName);
      var prompt := MealImagePrompt(mealName);
      var data := FirstInline(web.generate(ImageModel, prompt));
      if web.get(url) == 200 then
        r == ImageUrl(url) && calls == [HttpGet(url)]
      else if !Generated(data) then
        r == HttpError(500, GenerationFailed) && calls == [HttpGet(url), GenerateContent(ImageModel, prompt)]
      else
        calls == [HttpGet(url), GenerateContent(ImageModel, prompt), StorageUpload(MealBucket, key, data.value)] &&
        r == (if web.upload(MealBucket, key, data.value) == Uploaded then ImageUrl(url) else HttpError(500, UploadFailed))
    ensures r.ImageUrl? ==> r.url == MealImageUrl(base, mealName)
    ensures r.HttpError? ==> r.status == 500 && (r.detail == GenerationFailed || r.detail == UploadFailed)
  {
    var existing, lookup := CheckSupabaseImage(base, mealName, web);
    calls := lookup;
    if existing.Some? {
      return ImageUrl(existing.value), calls;
    }
    var generated, generation := GenerateImageFromGemini(mealName, web);
    calls := calls + generation;
    if !Generated(generated) {
      return HttpError(500, GenerationFailed), calls;
    }
    var stored, upload := UploadToSupabase(base, mealName, generated.value, web);
    calls := calls + upload;
    if stored.None? {
      return HttpError(500, UploadFailed), calls;
    }
    return ImageUrl(stored.value), calls;
  }
}
