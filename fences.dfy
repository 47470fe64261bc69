/**
 * Removing Markdown code fences from a model reply before `json.loads`. Two cleaners exist:
 * a chain of `str.replace` calls (meal log, recipe) and one regular-expression substitution
 * (meal plan) that only knows the ```` ```json ```` opener followed by a newline.
 */
module Fences {
  import opened Text

  const JsonFence := "```json"

  /** No backtick anywhere. */
  predicate NoBackticks(s: string) {
    forall i :: 0 <= i < |s| ==> s[i] != '`'
  }

  // ----- The replace chain -----

  /** `raw.replace("```json", "").replace("```", "").strip()`. */
  function CleanFences(raw: string): (r: string)
    ensures NoFence(r)
    ensures r == [] || (!IsSpace(r[0]) && !IsSpace(r[|r| - 1]))
  {
    var once := ReplaceAll(raw, JsonFence, "");
    var twice := ReplaceAll(once, Fence, "");
    RemoveFencesLeavesNone(once);
    NoFenceSlice(twice, StripBounds(twice).0, StripBounds(twice).1);
    Strip(twice)
  }

  /** Text without backticks passes both replacements untouched. */
  lemma ReplaceWithoutBackticks(s: string, pat: string)
    requires |pat| > 0 && pat[0] == '`' && NoBackticks(s)
    ensures ReplaceAll(s, pat, "") == s
  {
    ReplaceAllSkipsPrefix(s, [], pat, "");
    assert s + [] == s;
  }

  /** A reply without backticks is only stripped. */
  lemma CleanFencesPlain(s: string)
    requires NoBackticks(s)
    ensures CleanFences(s) == Strip(s)
  {
    ReplaceWithoutBackticks(s, JsonFence);
    ReplaceWithoutBackticks(s, Fence);
  }

  /** A body wrapped in a ```` ```json ```` fence comes back stripped, whatever the body's padding. */
  lemma CleanFencesRoundTrip(body: string)
    requires NoBackticks(body)
    ensures CleanFences(JsonFence + body + Fence) == Strip(body)
  {
    var s := JsonFence + body + Fence;
    assert s[..|JsonFence|] == JsonFence;
    assert s[|JsonFence|..] == body + Fence;
    ReplaceAllSkipsPrefix(body, Fence, JsonFence, "");
    assert ReplaceAll(s, JsonFence, "") == body + Fence;
    ReplaceAllSkipsPrefix(body, Fence, Fence, "");
    assert ReplaceAll(Fence, Fence, "") == "" + ReplaceAll(Fence[3..], Fence, "");
    assert body + "" == body;
  }

  // ----- The regular expression -----

  const OpenFenceLine := "```json\n"
  const CloseFenceLine := "\n```"

  /**
   * `re.sub(r"```json\n|\n```", "", s)`: scanning left to right, the first alternative is
   * tried before the second; a match is deleted and the scan resumes after it, otherwise one
   * character is kept.
   */
  function RemoveFenceLines(s: string): string
    decreases |s|
  {
    if |s| >= |OpenFenceLine| && s[..|OpenFenceLine|] == OpenFenceLine then RemoveFenceLines(s[|OpenFenceLine|..])
    else if |s| >= |CloseFenceLine| && s[..|CloseFenceLine|] == CloseFenceLine then RemoveFenceLines(s[|CloseFenceLine|..])
    else if s == [] then []
    else [s[0]] + RemoveFenceLines(s[1..])
  }

  /** Neither alternative can match where the text has no backtick in its first two places. */
  lemma NoMatchHere(s: string)
    requires s != [] && s[0] != '`' && (|s| >= 2 ==> s[1] != '`')
    ensures RemoveFenceLines(s) == [s[0]] + RemoveFenceLines(s[1..])
  {
    if |s| >= |OpenFenceLine| {
      assert s[..|OpenFenceLine|][0] == s[0];
    }
    if |s| >= |CloseFenceLine| {
      assert s[..|CloseFenceLine|][1] == s[1];
    }
  }

  /** Text without backticks is left alone. */
  lemma {:induction false} RemoveFenceLinesPlain(s: string)
    requires NoBackticks(s)
    ensures RemoveFenceLines(s) == s
    decreases |s|
  {
    if s != [] {
      NoMatchHere(s);
      RemoveFenceLinesPlain(s[1..]);
    }
  }

  /** The closing line at the end of a body without backticks is removed, and nothing else. */
  lemma {:induction false} RemoveClosingLine(body: string)
    requires NoBackticks(body)
    ensures RemoveFenceLines(body + CloseFenceLine) == body
    decreases |body|
  {
    var s := body + CloseFenceLine;
    if body == [] {
      assert s == CloseFenceLine;
      assert s[..|CloseFenceLine|] == CloseFenceLine;
      assert s[|CloseFenceLine|..] == [];
    } else {
      assert s[1] != '`' by {
        if |body| >= 2 {
          assert s[1] == body[1];
        } else {
          assert s[1] == '\n';
        }
      }
      NoMatchHere(s);
      assert s[1..] == body[1..] + CloseFenceLine;
      RemoveClosingLine(body[1..]);
      assert [body[0]] + body[1..] == body;
    }
  }

  /** A body fenced as ```` ```json ```` on its own lines comes back exactly. */
  lemma RemoveFenceLinesRoundTrip(body: string)
    requires NoBackticks(body)
    ensures RemoveFenceLines(OpenFenceLine + body + CloseFenceLine) == body
  {
    var s := OpenFenceLine + body + CloseFenceLine;
    assert s[..|OpenFenceLine|] == OpenFenceLine;
    assert s[|OpenFenceLine|..] == body + CloseFenceLine;
    RemoveClosingLine(body);
  }

  /** Where neither alternative matches, the first character is kept. */
  lemma KeepFirst(s: string)
    requires s != []
    requires |s| >= |OpenFenceLine| ==> s[..|OpenFenceLine|] != OpenFenceLine
    requires |s| >= |CloseFenceLine| ==> s[..|CloseFenceLine|] != CloseFenceLine
    ensures RemoveFenceLines(s) == [s[0]] + RemoveFenceLines(s[1..])
  {
  }

  /** A backtick followed within three places by a newline starts neither alternative. */
  lemma KeepBacktick(s: string, k: nat)
    requires 1 <= k <= 3 && |s| > k && s[0] == '`' && s[k] == '\n'
    ensures RemoveFenceLines(s) == [s[0]] + RemoveFenceLines(s[1..])
  {
    if |s| >= |OpenFenceLine| {
      assert s[..|OpenFenceLine|][k] == '\n';
    }
    if |s| >= |CloseFenceLine| {
      assert s[..|CloseFenceLine|][0] == '`';
    }
    KeepFirst(s);
  }

  /** Three backticks before a newline are kept as they are. */
  lemma KeepBackticks(t: string)
    requires t != [] && t[0] == '\n'
    ensures RemoveFenceLines(Fence + t) == Fence + RemoveFenceLines(t)
  {
    var s2 := ['`'] + t;
    KeepBacktick(s2, 1);
    assert s2[1..] == t;
    var s1 := ['`'] + s2;
    KeepBacktick(s1, 2);
    assert s1[1..] == s2;
    var s := ['`'] + s1;
    KeepBacktick(s, 3);
    assert s[1..] == s1;
    assert s == Fence + t;
  }

  /** A fence without the `json` label keeps its opening backticks: only the closing line goes. */
  lemma UnlabelledFenceSurvives(body: string)
    requires NoBackticks(body)
    ensures RemoveFenceLines(Fence + "\n" + body + CloseFenceLine) == Fence + "\n" + body
  {
    var t := "\n" + body + CloseFenceLine;
    NewlineThenBody(body);
    KeepBackticks(t);
    assert Fence + "\n" + body + CloseFenceLine == Fence + t;
    assert Fence + ("\n" + body) == Fence + "\n" + body;
  }

  /** A newline, then a body closed by its fence line: the newline and the body are kept. */
  lemma NewlineThenBody(body: string)
    requires NoBackticks(body)
    ensures RemoveFenceLines("\n" + body + CloseFenceLine) == "\n" + body
  {
    var t := "\n" + body + CloseFenceLine;
    if body != [] {
      assert t[1] == body[0];
    } else {
      assert t[1] == '\n';
    }
    NoMatchHere(t);
    assert t[1..] == body + CloseFenceLine;
    RemoveClosingLine(body);
  }
}
