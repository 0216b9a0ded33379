/** The pattern matching of internal/pricing/pricing.go: greedy and leftmost, against what "*" means. */
module Glob {
  import opened Prelude

  /** What a pattern means: "*" matches any run of characters, every other character itself. */
  predicate Matches(pattern: string, text: string)
    decreases |pattern|
  {
    if pattern == "" then text == ""
    else if pattern[0] == '*' then exists k :: 0 <= k <= |text| && Matches(pattern[1..], text[k..])
    else text != "" && text[0] == pattern[0] && Matches(pattern[1..], text[1..])
  }

  /** strings.Split(pattern, "*"). */
  function Split(pattern: string): (parts: seq<string>)
    ensures |parts| > 0
  {
    if pattern == "" then [""]
    else
      var rest := Split(pattern[1..]);
      if pattern[0] == '*' then [""] + rest else [[pattern[0]] + rest[0]] + rest[1..]
  }

  /** Putting the stars back between the parts. */
  function Joined(parts: seq<string>): string
    requires |parts| > 0
  {
    if |parts| == 1 then parts[0] else parts[0] + "*" + Joined(parts[1..])
  }

  lemma {:induction false} SplitJoined(pattern: string)
    ensures Joined(Split(pattern)) == pattern
    ensures forall i :: 0 <= i < |Split(pattern)| ==> '*' !in Split(pattern)[i]
  {
    if pattern != "" {
      SplitJoined(pattern[1..]);
      var rest := Split(pattern[1..]);
      if pattern[0] == '*' {
        assert ([""] + rest)[1..] == rest;
      } else {
        var parts := Split(pattern);
        assert parts[1..] == rest[1..];
        if |rest| > 1 {
          assert [pattern[0]] + (rest[0] + "*" + Joined(rest[1..])) == ([pattern[0]] + rest[0]) + "*" + Joined(rest[1..]);
        }
      }
    }
  }

  /** strings.Index: the leftmost place where `part` occurs. */
  function Index(text: string, part: string): (index: Option<nat>)
    ensures index.Some? ==> index.value + |part| <= |text| && part <= text[index.value..]
  {
    if part <= text then
      assert text[0..] == text;
      Some(0)
    else if text == "" then None
    else
      match Index(text[1..], part)
      case Some(i) => assert text[1..][i..] == text[i + 1..]; Some(i + 1)
      case None => None
  }

  /** `text` is the first part, then a run and the next part, and so on to the last. */
  ghost predicate InOrder(parts: seq<string>, text: string)
    requires |parts| > 0
    decreases |parts|, 0
  {
    if |parts| == 1 then text == parts[0]
    else parts[0] <= text && AfterRun(parts[1..], text[|parts[0]|..])
  }

  ghost predicate AfterRun(parts: seq<string>, text: string)
    requires |parts| > 0
    decreases |parts|, 1
  {
    exists k :: 0 <= k <= |text| && InOrder(parts, text[k..])
  }

  /** The meaning by characters and the meaning by parts agree. */
  lemma {:induction false} MatchesByParts(pattern: string, text: string)
    ensures Matches(pattern, text) <==> InOrder(Split(pattern), text)
    decreases |pattern|
  {
    if pattern != "" {
      var rest := Split(pattern[1..]);
      if pattern[0] == '*' {
        forall k | 0 <= k <= |text|
          ensures Matches(pattern[1..], text[k..]) <==> InOrder(rest, text[k..])
        {
          MatchesByParts(pattern[1..], text[k..]);
        }
        assert ([""] + rest)[1..] == rest && text[|""|..] == text;
      } else if text != "" {
        MatchesByParts(pattern[1..], text[1..]);
        var parts := Split(pattern);
        assert parts[1..] == rest[1..] && parts[0] == [pattern[0]] + rest[0];
        FirstCharacter(pattern[0], rest, text);
      }
    }
  }

  lemma FirstCharacter(c: char, rest: seq<string>, text: string)
    requires |rest| > 0 && text != ""
    ensures InOrder([[c] + rest[0]] + rest[1..], text) <==> text[0] == c && InOrder(rest, text[1..])
  {
    var parts := [[c] + rest[0]] + rest[1..];
    assert parts[1..] == rest[1..];
    assert text == [text[0]] + text[1..];
    if |rest| == 1 {
      assert text == parts[0] <==> text[0] == c && text[1..] == rest[0] by {
        assert parts[0][0] == c && parts[0][1..] == rest[0];
      }
    } else {
      assert parts[0] <= text <==> text[0] == c && rest[0] <= text[1..] by {
        PrefixShift(c, rest[0], text);
      }
      if rest[0] <= text[1..] {
        assert text[1..][|rest[0]|..] == text[|rest[0]| + 1..];
      }
    }
  }

  lemma PrefixShift(c: char, part: string, text: string)
    requires text != ""
    ensures [c] + part <= text <==> text[0] == c && part <= text[1..]
  {
    if [c] + part <= text {
      assert text[0] == ([c] + part)[0];
      assert text[1..][..|part|] == text[..|part| + 1][1..];
    }
    if text[0] == c && part <= text[1..] {
      assert text[..|part| + 1] == [c] + text[1..][..|part|];
    }
  }

  /** A longer run before the parts is as good as a shorter one. */
  lemma LongerRun(parts: seq<string>, text: string, k: nat)
    requires |parts| > 0 && k <= |text| && AfterRun(parts, text[k..])
    ensures AfterRun(parts, text)
  {
    var j :| 0 <= j <= |text[k..]| && InOrder(parts, text[k..][j..]);
    assert text[k..][j..] == text[k + j..];
  }

  lemma RestAfterMatch(parts: seq<string>, text: string, k: nat, i: nat)
    requires |parts| > 1 && k <= |text| && InOrder(parts, text[k..])
    requires i <= k && i + |parts[0]| <= |text|
    ensures AfterRun(parts[1..], text[i + |parts[0]|..])
  {
    var after := text[i + |parts[0]|..];
    assert text[k..][|parts[0]|..] == after[k - i..];
    LongerRun(parts[1..], after, k - i);
  }

  lemma FirstPlace(parts: seq<string>, text: string) returns (k: nat)
    requires |parts| > 1 && AfterRun(parts, text)
    ensures k <= |text| && InOrder(parts, text[k..]) && parts[0] <= text[k..]
  {
    k :| 0 <= k <= |text| && InOrder(parts, text[k..]);
  }

  lemma {:induction false} FirstIsNoLater(text: string, part: string, k: nat)
    requires k <= |text| && part <= text[k..]
    ensures Index(text, part).Some? && Index(text, part).value <= k
  {
    if !(part <= text) {
      assert k > 0 by { assert text[0..] == text; }
      assert text[1..][k - 1..] == text[k..];
      FirstIsNoLater(text[1..], part, k - 1);
    }
  }

  lemma LeftmostLosesNothing(parts: seq<string>, text: string, index: Option<nat>)
    requires |parts| > 1 && index == Index(text, parts[0]) && AfterRun(parts, text)
    ensures index.Some? && AfterRun(parts[1..], text[index.value + |parts[0]|..])
  {
    var k := FirstPlace(parts, text);
    FirstIsNoLater(text, parts[0], k);
    RestAfterMatch(parts, text, k, index.value);
  }

  lemma LeftmostThenRest(parts: seq<string>, text: string, i: nat)
    requires |parts| > 1 && i + |parts[0]| <= |text| && parts[0] <= text[i..]
    requires AfterRun(parts[1..], text[i + |parts[0]|..])
    ensures AfterRun(parts, text)
  {
    assert text[i..][|parts[0]|..] == text[i + |parts[0]|..];
    assert InOrder(parts, text[i..]);
  }

  /** Taking the leftmost occurrence loses no match and finds no false one. */
  lemma LeftmostIsEnough(parts: seq<string>, text: string, index: Option<nat>)
    requires |parts| > 1 && index == Index(text, parts[0])
    ensures index.None? ==> !AfterRun(parts, text)
    ensures index.Some? ==> (AfterRun(parts, text) <==> AfterRun(parts[1..], text[index.value + |parts[0]|..]))
  {
    if AfterRun(parts, text) {
      LeftmostLosesNothing(parts, text, index);
    } else if index.Some? {
      if AfterRun(parts[1..], text[index.value + |parts[0]|..]) {
        LeftmostThenRest(parts, text, index.value);
      }
    }
  }

  predicate HasSuffix(text: string, part: string) {
    |part| <= |text| && text[|text| - |part|..] == part
  }

  lemma LastPart(text: string, part: string)
    ensures AfterRun([part], text) <==> HasSuffix(text, part)
  {
    if HasSuffix(text, part) {
      assert InOrder([part], text[|text| - |part|..]);
    }
  }

  /** One part further: the rest of the text after its leftmost occurrence, if it has one. */
  lemma NextPart(parts: seq<string>, i: nat, rest: string, index: Option<nat>)
    requires i + 1 < |parts| && index == Index(rest, parts[i])
    ensures index.None? ==> !AfterRun(parts[i..], rest)
    ensures index.Some? ==> (AfterRun(parts[i..], rest) <==> AfterRun(parts[i + 1..], rest[index.value + |parts[i]|..]))
  {
    LeftmostIsEnough(parts[i..], rest, index);
    assert parts[i..][1..] == parts[i + 1..];
  }

  /** The greedy matcher finds a match exactly when there is one. */
  method GlobMatch(pattern: string, text: string) returns (matched: bool)
    ensures matched <==> Matches(pattern, text)
  {
    MatchesByParts(pattern, text);
    SplitJoined(pattern);
    var parts := Split(pattern);
    if |parts| == 1 {
      return pattern == text;
    }
    if !(parts[0] <= text) {
      return false;
    }
    var rest := text[|parts[0]|..];
    var i := 1;
    while i < |parts| - 1
      invariant 1 <= i <= |parts| - 1
      invariant Matches(pattern, text) <==> AfterRun(parts[i..], rest)
    {
      var index := Index(rest, parts[i]);
      NextPart(parts, i, rest, index);
      if index.None? {
        return false;
      }
      rest := rest[index.value + |parts[i]|..];
      i := i + 1;
    }
    LastPart(rest, parts[i]);
    assert parts[i..] == [parts[i]];
    return HasSuffix(rest, parts[i]);
  }

  // ------------------------------------------------------------ letter case

  /** strings.ToLower, character by character. */
  function Lower(s: string, lower: char -> char): (folded: string)
    ensures |folded| == |s|
  {
    if s == "" then "" else [lower(s[0])] + Lower(s[1..], lower)
  }

  /** Matching that takes characters with the same lower case for each other. */
  predicate MatchesAnyCase(pattern: string, text: string, lower: char -> char)
    decreases |pattern|
  {
    if pattern == "" then text == ""
    else if pattern[0] == '*' then exists k :: 0 <= k <= |text| && MatchesAnyCase(pattern[1..], text[k..], lower)
    else text != "" && lower(text[0]) == lower(pattern[0]) && MatchesAnyCase(pattern[1..], text[1..], lower)
  }

  /** No other character's lower case is a star, nor is a star's another character. */
  ghost predicate KeepsStar(lower: char -> char) {
    forall c :: lower(c) == '*' <==> c == '*'
  }

  lemma {:induction false} LowerFrom(s: string, k: nat, lower: char -> char)
    requires k <= |s|
    ensures Lower(s, lower)[k..] == Lower(s[k..], lower)
  {
    if k > 0 {
      LowerFrom(s[1..], k - 1, lower);
      assert s[1..][k - 1..] == s[k..];
      assert Lower(s, lower)[k..] == Lower(s[1..], lower)[k - 1..];
    } else {
      assert s[0..] == s;
    }
  }

  lemma {:induction false} CaseDoesNotMatter(pattern: string, text: string, lower: char -> char)
    requires KeepsStar(lower)
    ensures Matches(Lower(pattern, lower), Lower(text, lower)) <==> MatchesAnyCase(pattern, text, lower)
    decreases |pattern|
  {
    if pattern != "" {
      assert Lower(pattern, lower)[1..] == Lower(pattern[1..], lower);
      assert Lower(pattern, lower)[0] == '*' <==> pattern[0] == '*';
      if pattern[0] == '*' {
        forall k | 0 <= k <= |text|
          ensures Matches(Lower(pattern, lower)[1..], Lower(text, lower)[k..]) <==> MatchesAnyCase(pattern[1..], text[k..], lower)
        {
          LowerFrom(text, k, lower);
          CaseDoesNotMatter(pattern[1..], text[k..], lower);
        }
      } else if text != "" {
        assert Lower(text, lower)[1..] == Lower(text[1..], lower);
        CaseDoesNotMatter(pattern[1..], text[1..], lower);
      }
    }
  }

  /** matchPattern, for any mapping of characters to their lower case that leaves the star alone. */
  method MatchPattern(pattern: string, model: string, lower: char -> char) returns (matched: bool)
    requires KeepsStar(lower)
    ensures matched <==> MatchesAnyCase(pattern, model, lower)
  {
    CaseDoesNotMatter(pattern, model, lower);
    matched := GlobMatch(Lower(pattern, lower), Lower(model, lower));
  }
}
