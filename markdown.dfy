/** app/markdown_conversion.py: conversion between Slack mrkdwn and Markdown.
    The text is split into code and non-code parts; only non-code parts are
    rewritten, and `markdown_to_slack` pads code and formatted tokens with an
    ASCII space where they touch an East Asian wide character. The regular
    expressions are modelled by hand-written scanners that find the same
    leftmost, non-overlapping matches as Python's `re`. */
module MarkdownConversion {
  import opened Wrappers
  import opened Chars

  /*** Scanning primitives ***/

  /** The first `k >= j` where "```" starts. */
  function FenceFrom(s: string, j: nat): (r: Option<nat>)
    ensures r.Some? ==> j <= r.value && TripleTick(s, r.value)
    decreases |s| - j
  {
    if j + 3 > |s| then None
    else if TripleTick(s, j) then Some(j)
    else FenceFrom(s, j + 1)
  }

  /** The first `k >= j` holding `stop` or a newline: where a lazy run of
      `[^stop\n]` characters starting at `j` has to end. */
  function StopFrom(s: string, j: nat, stop: char): (r: Option<nat>)
    ensures r.Some? ==> j <= r.value < |s| && (s[r.value] == stop || s[r.value] == '\n')
    ensures r.Some? ==> forall m :: j <= m < r.value ==> s[m] != stop && s[m] != '\n'
    ensures r.None? ==> forall m :: j <= m < |s| ==> s[m] != stop && s[m] != '\n'
    decreases |s| - j
  {
    if j >= |s| then None
    else if s[j] == stop || s[j] == '\n' then Some(j)
    else StopFrom(s, j + 1, stop)
  }

  /*** Splitting on code: `re.split(r"(?s)(```.+?```|`[^`\n]+?`)", content)` ***/

  /** The end of a code block or inline code span matched at `i`, if one is:
      "```", at least one character of any kind, and the first "```" after it;
      or a backtick, a run of characters other than backtick and newline, and a backtick. */
  function CodeAt(s: string, i: nat): (r: Option<nat>)
    ensures r.Some? ==> i + 3 <= r.value <= |s| && s[i] == '`' && s[r.value - 1] == '`'
  {
    if BlockAt(s, i).Some? then BlockAt(s, i) else InlineAt(s, i)
  }

  /** The end of "```", at least one character and the first "```" after it, matched at `i`. */
  function BlockAt(s: string, i: nat): (r: Option<nat>)
    ensures r.Some? ==> i + 3 <= r.value <= |s| && s[i] == '`' && s[r.value - 1] == '`'
  {
    if TripleTick(s, i) && FenceFrom(s, i + 4).Some? then
      var k := FenceFrom(s, i + 4).value;
      FenceChars(s, i);
      FenceChars(s, k);
      Some(k + 3)
    else None
  }

  /** The end of a backtick, a run of characters other than backtick and
      newline, and a backtick, matched at `i`. */
  function InlineAt(s: string, i: nat): (r: Option<nat>)
    ensures r.Some? ==> i + 3 <= r.value <= |s| && s[i] == '`' && s[r.value - 1] == '`'
  {
    if i < |s| && s[i] == '`' then
      match StopFrom(s, i + 1, '`')
      case Some(k) => if s[k] == '`' && k >= i + 2 then Some(k + 1) else None
      case None => None
    else None
  }

  /** "```" starts at `k`. */
  predicate TripleTick(s: string, k: nat) {
    k + 3 <= |s| && s[k..k + 3] == "```"
  }

  lemma FenceChars(s: string, k: nat)
    requires TripleTick(s, k)
    ensures s[k] == '`' && s[k + 2] == '`'
  {
    assert s[k] == s[k..k + 3][0] && s[k + 2] == s[k..k + 3][2];
  }

  /** The parts of `s[start..]`, scanning for the next code match from `i`:
      text, code, text, ..., text. */
  function SplitFrom(s: string, start: nat, i: nat): (parts: seq<string>)
    requires start <= i <= |s|
    ensures |parts| % 2 == 1
    decreases |s| - i
  {
    if i == |s| then [s[start..]]
    else match CodeAt(s, i)
      case Some(e) => [s[start..i], s[i..e]] + SplitFrom(s, e, e)
      case None => SplitFrom(s, start, i + 1)
  }

  function Split(s: string): seq<string> {
    SplitFrom(s, 0, 0)
  }

  function Concat(parts: seq<string>): string {
    if parts == [] then "" else parts[0] + Concat(parts[1..])
  }

  /** A part copied verbatim by both conversions: one starting with a backtick,
      a code match or an unmatched leftover. */
  predicate IsCode(part: string) {
    |part| > 0 && part[0] == '`'
  }

  lemma {:induction false} ConcatAppend(a: seq<string>, b: seq<string>)
    ensures Concat(a + b) == Concat(a) + Concat(b)
  {
    if a == [] {
      assert a + b == b;
    } else {
      assert (a + b)[1..] == a[1..] + b;
      ConcatAppend(a[1..], b);
    }
  }

  lemma {:induction false} SplitFromConcat(s: string, start: nat, i: nat)
    requires start <= i <= |s|
    ensures Concat(SplitFrom(s, start, i)) == s[start..]
    decreases |s| - i
  {
    if i == |s| {
      assert [s[start..]][1..] == [];
    } else {
      match CodeAt(s, i)
      case Some(e) =>
        SplitFromConcat(s, e, e);
        ConcatCodeStep(s, start, i, e);
      case None =>
        SplitFromConcat(s, start, i + 1);
    }
  }

  /** The text and code before a match, then the parts after it. */
  lemma ConcatCodeStep(s: string, start: nat, i: nat, e: nat)
    requires start <= i < e <= |s| && CodeAt(s, i) == Some(e)
    requires Concat(SplitFrom(s, e, e)) == s[e..]
    ensures Concat(SplitFrom(s, start, i)) == s[start..]
  {
    var rest := SplitFrom(s, e, e);
    SplitAtCode(s, start, i, e);
    ConcatAppend([s[start..i], s[i..e]], rest);
    ConcatPair(s[start..i], s[i..e]);
    CutThree(s, start, i, e);
  }

  lemma ConcatPair(a: string, b: string)
    ensures Concat([a, b]) == a + b
  {
    assert [a, b][1..] == [b];
    assert [b][1..] == [];
    assert Concat([b]) == b + Concat([]) == b;
  }

  lemma CutThree(s: string, start: nat, i: nat, e: nat)
    requires start <= i <= e <= |s|
    ensures s[start..] == s[start..i] + s[i..e] + s[e..]
  {
  }

  /** The parts put back together are the input. */
  lemma SplitConcat(s: string)
    ensures Concat(Split(s)) == s
  {
    SplitFromConcat(s, 0, 0);
  }

  /** What a code match looks like: at least three characters, a backtick at each end. */
  predicate CodeMatch(p: string) {
    |p| >= 3 && p[0] == '`' && p[|p| - 1] == '`'
  }

  lemma {:induction false} SplitFromCodeParts(s: string, start: nat, i: nat, k: nat)
    requires start <= i <= |s| && k < |SplitFrom(s, start, i)| && k % 2 == 1
    ensures CodeMatch(SplitFrom(s, start, i)[k])
    decreases |s| - i, 1
  {
    if i < |s| {
      match CodeAt(s, i)
      case Some(e) =>
        CodePartsAtCode(s, start, i, e, k);
      case None =>
        SplitPastText(s, start, i);
        SplitFromCodeParts(s, start, i + 1, k);
    }
  }

  /** The parts from a code match at `i`: the match itself, then those after it. */
  lemma {:induction false} CodePartsAtCode(s: string, start: nat, i: nat, e: nat, k: nat)
    requires start <= i < |s| && CodeAt(s, i) == Some(e)
    requires k < |SplitFrom(s, start, i)| && k % 2 == 1
    ensures CodeMatch(SplitFrom(s, start, i)[k])
    decreases |s| - i, 0
  {
    SplitAtCode(s, start, i, e);
    if k == 1 {
      CodePart(s, i, e);
    } else {
      SplitFromCodeParts(s, e, e, k - 2);
      PartPast([s[start..i], s[i..e]], SplitFrom(s, e, e), k);
    }
  }

  lemma SplitAtCode(s: string, start: nat, i: nat, e: nat)
    requires start <= i < |s| && CodeAt(s, i) == Some(e)
    ensures SplitFrom(s, start, i) == [s[start..i], s[i..e]] + SplitFrom(s, e, e)
  {
  }

  lemma SplitPastText(s: string, start: nat, i: nat)
    requires start <= i < |s| && CodeAt(s, i).None?
    ensures SplitFrom(s, start, i) == SplitFrom(s, start, i + 1)
  {
  }

  lemma PartPast(a: seq<string>, b: seq<string>, k: nat)
    requires |a| <= k < |a| + |b|
    ensures (a + b)[k] == b[k - |a|]
  {
  }

  /** A code match has a backtick at each end. */
  lemma CodePart(s: string, i: nat, e: nat)
    requires CodeAt(s, i) == Some(e)
    ensures CodeMatch(s[i..e])
  {
    assert s[i..e][0] == s[i] && s[i..e][e - i - 1] == s[e - 1];
  }

  /** Every second part is a code match: at least three characters, a backtick at each end. */
  lemma SplitCodeParts(s: string, k: nat)
    requires k < |Split(s)| && k % 2 == 1
    ensures IsCode(Split(s)[k]) && Split(s)[k][|Split(s)[k]| - 1] == '`' && |Split(s)[k]| >= 3
  {
    SplitFromCodeParts(s, 0, 0, k);
  }

  lemma {:induction false} SplitFromWithoutBacktick(s: string, start: nat, i: nat)
    requires start <= i <= |s|
    requires forall m :: i <= m < |s| ==> s[m] != '`'
    ensures SplitFrom(s, start, i) == [s[start..]]
    decreases |s| - i
  {
    if i < |s| {
      SplitFromWithoutBacktick(s, start, i + 1);
    }
  }

  /** Text without a backtick is one non-code part. */
  lemma SplitWithoutBacktick(s: string)
    requires forall m :: 0 <= m < |s| ==> s[m] != '`'
    ensures Split(s) == [s]
  {
    SplitFromWithoutBacktick(s, 0, 0);
  }

  /*** A code span in the input is one of the parts ***/

  /** A position moved right by `n`. */
  function Shift(o: Option<nat>, n: nat): Option<nat> {
    if o.Some? then Some(o.value + n) else None
  }

  /** The fence scan looks only forward: text in front does not change what it finds. */
  lemma {:induction false} FenceFromDrop(s: string, n: nat, j: nat)
    requires n <= |s|
    ensures FenceFrom(s, n + j) == Shift(FenceFrom(s[n..], j), n)
    decreases |s| - n - j
  {
    if n + j + 3 <= |s| {
      TripleTickDrop(s, n, j);
      if !TripleTick(s[n..], j) {
        FenceFromDrop(s, n, j + 1);
        assert FenceFrom(s, n + j) == FenceFrom(s, n + (j + 1));
        assert FenceFrom(s[n..], j) == FenceFrom(s[n..], j + 1);
      }
    }
  }

  lemma TripleTickDrop(s: string, n: nat, j: nat)
    requires n <= |s|
    ensures TripleTick(s, n + j) == TripleTick(s[n..], j)
  {
    if n + j + 3 <= |s| {
      assert s[n..][j..j + 3] == s[n + j..n + j + 3];
    }
  }

  lemma {:induction false} StopFromDrop(s: string, n: nat, j: nat, stop: char)
    requires n <= |s|
    ensures StopFrom(s, n + j, stop) == Shift(StopFrom(s[n..], j, stop), n)
    decreases |s| - n - j
  {
    if n + j < |s| {
      assert s[n..][j] == s[n + j];
      if s[n + j] != stop && s[n + j] != '\n' {
        StopFromDrop(s, n, j + 1, stop);
      }
    }
  }

  /** Whether a code match starts at a position does not depend on the text in front. */
  lemma CodeAtDrop(s: string, n: nat, j: nat)
    requires n <= |s|
    ensures CodeAt(s, n + j) == Shift(CodeAt(s[n..], j), n)
  {
    BlockAtDrop(s, n, j);
    InlineAtDrop(s, n, j);
  }

  lemma BlockAtDrop(s: string, n: nat, j: nat)
    requires n <= |s|
    ensures BlockAt(s, n + j) == Shift(BlockAt(s[n..], j), n)
  {
    FenceFromDrop(s, n, j + 4);
    TripleTickDrop(s, n, j);
    if TripleTick(s[n..], j) && FenceFrom(s[n..], j + 4).Some? {
      var k := FenceFrom(s[n..], j + 4).value;
      assert FenceFrom(s, n + j + 4) == Some(n + k);
    }
  }

  lemma InlineAtDrop(s: string, n: nat, j: nat)
    requires n <= |s|
    ensures InlineAt(s, n + j) == Shift(InlineAt(s[n..], j), n)
  {
    StopFromDrop(s, n, j + 1, '`');
    if n + j < |s| {
      assert s[n..][j] == s[n + j];
      match StopFrom(s[n..], j + 1, '`')
      case Some(k) => assert s[n..][k] == s[n + k];
      case None =>
    }
  }

  /** No code match starts at a character other than a backtick. */
  lemma NoCodeAt(s: string, m: nat)
    requires m < |s| && s[m] != '`'
    ensures CodeAt(s, m).None?
  {
    if TripleTick(s, m) {
      FenceChars(s, m);
    }
  }

  lemma {:induction false} SplitFromPastText(s: string, start: nat, i: nat, j: nat)
    requires start <= i <= j <= |s|
    requires forall m :: i <= m < j ==> s[m] != '`'
    ensures SplitFrom(s, start, i) == SplitFrom(s, start, j)
    decreases j - i
  {
    if i < j {
      NoCodeAt(s, i);
      SplitPastText(s, start, i);
      SplitFromPastText(s, start, i + 1, j);
    }
  }

  /** The parts of a suffix are found the same way with or without the text in front. */
  lemma {:induction false} SplitFromDrop(s: string, n: nat, start: nat, i: nat)
    requires n <= |s| && start <= i && n + i <= |s|
    ensures SplitFrom(s, n + start, n + i) == SplitFrom(s[n..], start, i)
    decreases |s| - n - i, 1
  {
    if n + i == |s| {
      SplitDropAtEnd(s, n, start, i);
    } else {
      match CodeAt(s[n..], i)
      case Some(e) => SplitDropSome(s, n, start, i, e);
      case None => SplitDropNone(s, n, start, i);
    }
  }

  lemma {:induction false} SplitDropSome(s: string, n: nat, start: nat, i: nat, e: nat)
    requires n <= |s| && start <= i && n + i < |s| && CodeAt(s[n..], i) == Some(e)
    ensures SplitFrom(s, n + start, n + i) == SplitFrom(s[n..], start, i)
    decreases |s| - n - i, 0, 1
  {
    CodeAtDropSome(s, n, i, e);
    SplitDropAtCode(s, n, start, i, e);
  }

  lemma {:induction false} SplitDropNone(s: string, n: nat, start: nat, i: nat)
    requires n <= |s| && start <= i && n + i < |s| && CodeAt(s[n..], i).None?
    ensures SplitFrom(s, n + start, n + i) == SplitFrom(s[n..], start, i)
    decreases |s| - n - i, 0
  {
    CodeAtDropNone(s, n, i);
    SplitDropPastText(s, n, start, i);
    SplitFromDrop(s, n, start, i + 1);
  }

  lemma SplitDropAtEnd(s: string, n: nat, start: nat, i: nat)
    requires n <= |s| && start <= i && n + i == |s|
    ensures SplitFrom(s, n + start, n + i) == SplitFrom(s[n..], start, i)
  {
    assert s[n + start..] == s[n..][start..];
  }

  lemma CodeAtDropSome(s: string, n: nat, i: nat, e: nat)
    requires n <= |s| && CodeAt(s[n..], i) == Some(e)
    ensures CodeAt(s, n + i) == Some(n + e) && i < e && n + e <= |s|
  {
    CodeAtDrop(s, n, i);
  }

  lemma CodeAtDropNone(s: string, n: nat, i: nat)
    requires n <= |s| && CodeAt(s[n..], i).None?
    ensures CodeAt(s, n + i).None?
  {
    CodeAtDrop(s, n, i);
  }

  lemma SplitDropPastText(s: string, n: nat, start: nat, i: nat)
    requires n <= |s| && start <= i && n + i < |s|
    requires CodeAt(s, n + i).None? && CodeAt(s[n..], i).None?
    ensures SplitFrom(s, n + start, n + i) == SplitFrom(s, n + start, n + (i + 1))
    ensures SplitFrom(s[n..], start, i) == SplitFrom(s[n..], start, i + 1)
  {
    SplitPastText(s, n + start, n + i);
    SplitPastText(s[n..], start, i);
  }

  lemma {:induction false} SplitDropAtCode(s: string, n: nat, start: nat, i: nat, e: nat)
    requires n <= |s| && start <= i < e && n + e <= |s|
    requires CodeAt(s[n..], i) == Some(e) && CodeAt(s, n + i) == Some(n + e)
    ensures SplitFrom(s, n + start, n + i) == SplitFrom(s[n..], start, i)
    decreases |s| - n - i, 0, 0
  {
    SplitAtCodeShifted(s, n, start, i, e);
    SplitAtCode(s[n..], start, i, e);
    SplitFromDrop(s, n, e, e);
  }

  /** The split of `s` at a code match, told in the terms of `s[n..]`. */
  lemma SplitAtCodeShifted(s: string, n: nat, start: nat, i: nat, e: nat)
    requires n <= |s| && start <= i < e && n + e <= |s|
    requires CodeAt(s, n + i) == Some(n + e)
    ensures SplitFrom(s, n + start, n + i) == [s[n..][start..i], s[n..][i..e]] + SplitFrom(s, n + e, n + e)
  {
    SplitAtCode(s, n + start, n + i, n + e);
    SliceOfDrop(s, n, start, i);
    SliceOfDrop(s, n, i, e);
    FirstTwo(s[n + start..n + i], s[n..][start..i], s[n + i..n + e], s[n..][i..e]);
  }

  lemma FirstTwo(x: string, x': string, y: string, y': string)
    requires x == x' && y == y'
    ensures [x, y] == [x', y']
  {
  }

  lemma SliceOfDrop(s: string, n: nat, x: nat, y: nat)
    requires n <= |s| && x <= y <= |s| - n
    ensures s[n + x..n + y] == s[n..][x..y]
  {
  }

  /** Two part lists that both start with the same two parts and go on the same way. */
  lemma SameParts(p: seq<string>, q: seq<string>, x: string, x': string, y: string, y': string,
                  rest: seq<string>, rest': seq<string>)
    requires p == [x, y] + rest && q == [x', y'] + rest'
    requires x == x' && y == y' && rest == rest'
    ensures p == q
  {
  }

  /** Text without backticks up to `n`, then a code match ending at `n + e`:
      the text, the match, and the parts of what follows it. */
  lemma SplitAfterTextAt(s: string, n: nat, e: nat)
    requires n < |s| && forall m :: 0 <= m < n ==> s[m] != '`'
    requires CodeAt(s, n) == Some(n + e)
    ensures Split(s) == [s[0..n], s[n..n + e]] + SplitFrom(s, n + e, n + e)
  {
    SplitSkipsText(s, n);
    SplitAtCode(s, 0, n, n + e);
  }

  lemma SplitSkipsText(s: string, n: nat)
    requires n <= |s| && forall m :: 0 <= m < n ==> s[m] != '`'
    ensures Split(s) == SplitFrom(s, 0, n)
  {
    SplitFromPastText(s, 0, 0, n);
  }

  /** A code match `c` after text without backticks is the second part, and
      the rest is split as it would be on its own. */
  lemma SplitAroundCode(pre: string, c: string, post: string)
    requires NoneOf(pre, {'`'}) && CodeAt(c + post, 0) == Some(|c|)
    ensures Split(pre + c + post) == [pre, c] + Split(post)
  {
    var s, n, e := pre + c + post, |pre|, |c|;
    ThreePieces(pre, c, post);
    CodeAfterText(pre, c, post);
    SplitAfterTextAt(s, n, e);
    SplitAfterCode(pre, c, post);
    SameParts(Split(s), [pre, c] + Split(post),
      s[0..n], pre, s[n..n + e], c, SplitFrom(s, n + e, n + e), Split(post));
  }

  lemma CodeAfterText(pre: string, c: string, post: string)
    requires CodeAt(c + post, 0) == Some(|c|)
    ensures CodeAt(pre + c + post, |pre|) == Some(|pre| + |c|)
  {
    var s := pre + c + post;
    ThreePieces(pre, c, post);
    CodeAtDrop(s, |pre|, 0);
  }

  lemma SplitAfterCode(pre: string, c: string, post: string)
    ensures SplitFrom(pre + c + post, |pre| + |c|, |pre| + |c|) == Split(post)
  {
    TailOfThree(pre, c, post);
    SplitOfSuffix(pre + c + post, |pre| + |c|);
  }

  lemma TailOfThree(pre: string, c: string, post: string)
    ensures (pre + c + post)[|pre| + |c|..] == post
  {
  }

  /** The parts from `n` on are those of the suffix at `n`. */
  lemma SplitOfSuffix(s: string, n: nat)
    requires n <= |s|
    ensures SplitFrom(s, n, n) == Split(s[n..])
  {
    SplitFromDrop(s, n, 0, 0);
  }

  /** Where the three pieces of `pre + c + post` sit. */
  lemma ThreePieces(pre: string, c: string, post: string)
    ensures var s := pre + c + post;
      && (forall m :: 0 <= m < |pre| ==> s[m] == pre[m])
      && s[0..|pre|] == pre && s[|pre|..] == c + post
      && s[|pre|..|pre| + |c|] == c && s[|pre| + |c|..] == post
  {
  }

  /** What may stand between the backticks of inline code: `[^`\n]+`. */
  predicate InlineBody(x: string) {
    |x| > 0 && NoneOf(x, {'`', '\n'})
  }

  function InlineCode(x: string): string {
    "`" + x + "`"
  }

  /** What may stand between the fences of a code block here: at least one
      character, no "```" and no backtick at the end, so that the first
      closing fence is the one after it. */
  predicate BlockBody(y: string) {
    && |y| > 0 && y[|y| - 1] != '`'
    && forall k :: 0 <= k < |y| ==> !TripleTick(y, k)
  }

  function FencedCode(y: string): string {
    "```" + y + "```"
  }

  /** Inline code is matched whole, whatever follows it. */
  lemma InlineCodeAt(x: string, post: string)
    requires InlineBody(x)
    ensures CodeAt(InlineCode(x) + post, 0) == Some(|InlineCode(x)|)
  {
    var s := InlineCode(x) + post;
    assert s[1] == x[0];
    if |s| >= 3 {
      assert s[0..3][1] == s[1];
    }
    assert forall m :: 1 <= m < |x| + 1 ==> s[m] == x[m - 1];
    assert s[|x| + 1] == '`';
  }

  lemma {:induction false} FenceFromAt(s: string, j: nat, k: nat)
    requires j <= k && TripleTick(s, k)
    requires forall m :: j <= m < k ==> !TripleTick(s, m)
    ensures FenceFrom(s, j) == Some(k)
    decreases k - j
  {
    if j < k {
      assert !TripleTick(s, j);
      FenceFromAt(s, j + 1, k);
    } else {
      assert TripleTick(s, j);
    }
  }

  /** A fenced block is matched whole, whatever follows it. */
  lemma FencedCodeAt(y: string, post: string)
    requires BlockBody(y)
    ensures CodeAt(FencedCode(y) + post, 0) == Some(|FencedCode(y)|)
  {
    var s, k := FencedCode(y) + post, 3 + |y|;
    assert s[0..3] == "```" && s[k..k + 3] == "```";
    forall m | 4 <= m < k
      ensures !TripleTick(s, m)
    {
      if m + 3 <= k {
        assert s[m..m + 3] == y[m - 3..m];
        assert !TripleTick(y, m - 3);
      } else {
        assert s[k - 1] == y[|y| - 1];
        assert s[m..m + 3][k - 1 - m] == s[k - 1];
      }
    }
    FenceFromAt(s, 4, k);
  }

  /** Inline code after text without backticks is a part of its own. */
  lemma SplitAroundInlineCode(pre: string, x: string, post: string)
    requires NoneOf(pre, {'`'}) && InlineBody(x)
    ensures Split(pre + InlineCode(x) + post) == [pre, InlineCode(x)] + Split(post)
  {
    InlineCodeAt(x, post);
    SplitAroundCode(pre, InlineCode(x), post);
  }

  /** A fenced block after text without backticks is a part of its own. */
  lemma SplitAroundFencedCode(pre: string, y: string, post: string)
    requires NoneOf(pre, {'`'}) && BlockBody(y)
    ensures Split(pre + FencedCode(y) + post) == [pre, FencedCode(y)] + Split(post)
  {
    FencedCodeAt(y, post);
    SplitAroundCode(pre, FencedCode(y), post);
  }

  /** Characters absent from the whole text are absent from every part. */
  lemma {:induction false} ConcatNoneOf(parts: seq<string>, cs: set<char>, k: nat)
    requires NoneOf(Concat(parts), cs) && k < |parts|
    ensures NoneOf(parts[k], cs)
  {
    assert Concat(parts) == parts[0] + Concat(parts[1..]);
    if k > 0 {
      assert forall m :: 0 <= m < |Concat(parts[1..])| ==> Concat(parts[1..])[m] == Concat(parts)[|parts[0]| + m];
      ConcatNoneOf(parts[1..], cs, k - 1);
    } else {
      assert forall m :: 0 <= m < |parts[0]| ==> parts[0][m] == Concat(parts)[m];
    }
  }

  /*** Delimiter rewrites: `re.sub(pattern, replacement, part)` ***/

  /** A rule `D(?!\s)([^E\n]+?)(?<!\s)D` replaced by `open\1close`, where the
      delimiter `D` is one or more copies of the character `E`. A guarded rule
      also needs no `*` or `_` right before and right after the match. */
  datatype Rule = Rule(delim: string, excl: char, guarded: bool, newOpen: string, newClose: string)

  predicate ValidRule(r: Rule) {
    && |r.delim| >= 1
    && !IsSpace(r.excl)
    && forall k :: 0 <= k < |r.delim| ==> r.delim[k] == r.excl
  }

  /** Content a rule accepts between its delimiters: non-empty, free of the
      delimiter character and of newlines, and not starting or ending with whitespace. */
  predicate Content(x: string, excl: char) {
    && |x| > 0
    && !IsSpace(x[0]) && !IsSpace(x[|x| - 1])
    && forall m :: 0 <= m < |x| ==> x[m] != excl && x[m] != '\n'
  }

  predicate IsStarOrUnderscore(c: char) {
    c == '*' || c == '_'
  }

  /** The characters between two positions form accepted content. */
  lemma ContentBetween(s: string, c: nat, k: nat, excl: char)
    requires c < k <= |s| && !IsSpace(s[c]) && !IsSpace(s[k - 1])
    requires forall m :: c <= m < k ==> s[m] != excl && s[m] != '\n'
    ensures Content(s[c..k], excl)
  {
    assert forall m :: 0 <= m < k - c ==> s[c..k][m] == s[c + m];
  }

  /** Where the closing delimiter starts when the rule matches at `i`. */
  function RuleAt(r: Rule, s: string, i: nat): (k: Option<nat>)
    requires i <= |s|
    ensures k.Some? ==>
      var n := |r.delim|;
      && i + n <= k.value && k.value + n <= |s|
      && s[i..i + n] == r.delim && s[k.value..k.value + n] == r.delim
      && Content(s[i + n..k.value], r.excl)
  {
    var n := |r.delim|;
    var c := i + n;
    if !(c <= |s| && s[i..c] == r.delim) then None
    else if r.guarded && i > 0 && IsStarOrUnderscore(s[i - 1]) then None
    else if c == |s| || IsSpace(s[c]) then None
    else match StopFrom(s, c, r.excl)
      case None => None
      case Some(k) =>
        if k == c || IsSpace(s[k - 1]) || !(k + n <= |s| && s[k..k + n] == r.delim) then None
        else if r.guarded && k + n < |s| && IsStarOrUnderscore(s[k + n]) then None
        else
          ContentBetween(s, c, k, r.excl);
          Some(k)
  }

  /** `re.sub` of the rule over `s[i..]`: leftmost matches, not overlapping. */
  function SubFrom(r: Rule, s: string, i: nat): string
    requires i <= |s|
    decreases |s| - i
  {
    if i == |s| then ""
    else match RuleAt(r, s, i)
      case Some(k) => r.newOpen + s[i + |r.delim|..k] + r.newClose + SubFrom(r, s, k + |r.delim|)
      case None => [s[i]] + SubFrom(r, s, i + 1)
  }

  function Sub(r: Rule, s: string): string {
    SubFrom(r, s, 0)
  }

  /** The rules applied in order, each to the previous one's output. */
  function ApplyRules(rules: seq<Rule>, s: string): string {
    if rules == [] then s else Sub(rules[|rules| - 1], ApplyRules(rules[..|rules| - 1], s))
  }

  /** `slack_to_markdown`: `*b*` to `**b**`, `_i_` to `*i*`, `~s~` to `~~s~~`. */
  const SlackToMarkdownRules: seq<Rule> := [StarToBold, UnderscoreToItalic, TildeToStrike]

  const StarToBold: Rule := Rule("*", '*', false, "**", "**")
  const UnderscoreToItalic: Rule := Rule("_", '_', false, "*", "*")
  const TildeToStrike: Rule := Rule("~", '~', false, "~~", "~~")

  /** `markdown_to_slack`: `***bi***` to `_*bi*_`, an isolated `*i*` to `_i_`,
      `**b**` and `__b__` to `*b*`, `~~s~~` to `~s~`. */
  const MarkdownToSlackRules: seq<Rule> := [TripleStar, LoneStar, DoubleStar, DoubleUnderscore, DoubleTilde]

  const TripleStar: Rule := Rule("***", '*', false, "_*", "*_")
  const LoneStar: Rule := Rule("*", '*', true, "_", "_")
  const DoubleStar: Rule := Rule("**", '*', false, "*", "*")
  const DoubleUnderscore: Rule := Rule("__", '_', false, "*", "*")
  const DoubleTilde: Rule := Rule("~~", '~', false, "~", "~")

  lemma {:induction false} SubFromNoMatch(r: Rule, s: string, i: nat)
    requires i <= |s|
    requires forall m :: i <= m < |s| ==> RuleAt(r, s, m).None?
    ensures SubFrom(r, s, i) == s[i..]
    decreases |s| - i
  {
    if i < |s| {
      SubFromNoMatch(r, s, i + 1);
      assert s[i..] == [s[i]] + s[i + 1..];
    }
  }

  /** A part without the rule's delimiter character is left as it is. */
  lemma SubWithoutDelimiter(r: Rule, s: string)
    requires ValidRule(r)
    requires forall m :: 0 <= m < |s| ==> s[m] != r.excl
    ensures Sub(r, s) == s
  {
    forall m | 0 <= m < |s|
      ensures RuleAt(r, s, m).None?
    {
      if m + |r.delim| <= |s| {
        assert s[m..m + |r.delim|][0] != r.delim[0];
      }
    }
    SubFromNoMatch(r, s, 0);
  }

  /** A token of accepted content between two delimiters is rewritten whole. */
  lemma SubRewritesToken(r: Rule, x: string)
    requires ValidRule(r) && Content(x, r.excl)
    ensures Sub(r, r.delim + x + r.delim) == r.newOpen + x + r.newClose
  {
    var s, n := r.delim + x + r.delim, |r.delim|;
    assert s[..n] == r.delim && s[n..n + |x|] == x && s[n + |x|..] == r.delim;
    assert s[n + |x|] == r.excl;
    assert StopFrom(s, n, r.excl) == Some(n + |x|);
    assert RuleAt(r, s, 0) == Some(n + |x|);
    assert SubFrom(r, s, n + |x| + n) == "";
    assert s[n..n + |x|] == x;
  }

  /** No match starts anywhere in a delimiter pair whose content is empty or
      has whitespace on an inner side. */
  lemma NoRuleAtUnformatted(r: Rule, x: string, m: nat)
    requires ValidRule(r)
    requires forall j :: 0 <= j < |x| ==> x[j] != r.excl && x[j] != '\n'
    requires |x| == 0 || IsSpace(x[0]) || IsSpace(x[|x| - 1])
    requires m < |r.delim + x + r.delim|
    ensures RuleAt(r, r.delim + x + r.delim, m).None?
  {
    var n := |r.delim|;
    if n <= m < n + |x| {
      NoRuleInContent(r, x, m);
    } else if m == 0 {
      NoRuleAtOpening(r, x);
    } else if m < n {
      NoRuleInsideOpening(r, x, m);
    }
  }

  /** A match cannot start on a content character: it is not the delimiter's. */
  lemma NoRuleInContent(r: Rule, x: string, m: nat)
    requires ValidRule(r)
    requires forall j :: 0 <= j < |x| ==> x[j] != r.excl && x[j] != '\n'
    requires |r.delim| <= m < |r.delim| + |x|
    ensures RuleAt(r, r.delim + x + r.delim, m).None?
  {
    var s, n := r.delim + x + r.delim, |r.delim|;
    assert s[m] == x[m - n];
    if m + n <= |s| {
      assert s[m..m + n][0] != r.delim[0];
    }
  }

  /** The opening delimiter starts no match: the content is empty, or it
      starts or ends with whitespace. */
  lemma NoRuleAtOpening(r: Rule, x: string)
    requires ValidRule(r)
    requires forall j :: 0 <= j < |x| ==> x[j] != r.excl && x[j] != '\n'
    requires |x| == 0 || IsSpace(x[0]) || IsSpace(x[|x| - 1])
    ensures RuleAt(r, r.delim + x + r.delim, 0).None?
  {
    var s, n := r.delim + x + r.delim, |r.delim|;
    assert s[0..n] == r.delim;
    if |x| == 0 {
      assert s[n] == r.excl;
    } else if !IsSpace(x[0]) {
      NoRuleAtOpeningSpaceBeforeClose(r, x);
    } else {
      assert s[n] == x[0];
    }
  }

  /** With the content's last character a space, the lazy run stops at the
      closing delimiter right after that space. */
  lemma NoRuleAtOpeningSpaceBeforeClose(r: Rule, x: string)
    requires ValidRule(r)
    requires forall j :: 0 <= j < |x| ==> x[j] != r.excl && x[j] != '\n'
    requires |x| > 0 && IsSpace(x[|x| - 1])
    ensures RuleAt(r, r.delim + x + r.delim, 0).None?
  {
    var s, n := r.delim + x + r.delim, |r.delim|;
    assert s[n + |x|] == r.excl;
    assert forall j :: n <= j < n + |x| ==> s[j] == x[j - n];
    assert StopFrom(s, n, r.excl) == Some(n + |x|);
    assert s[n + |x| - 1] == x[|x| - 1];
  }

  /** A match cannot start inside the opening run: the run ahead of it is too short. */
  lemma NoRuleInsideOpening(r: Rule, x: string, m: nat)
    requires ValidRule(r)
    requires forall j :: 0 <= j < |x| ==> x[j] != r.excl && x[j] != '\n'
    requires 0 < m < |r.delim|
    ensures RuleAt(r, r.delim + x + r.delim, m).None?
  {
    var s, n := r.delim + x + r.delim, |r.delim|;
    if |x| > 0 {
      assert s[m..m + n][n - m] == s[n] == x[0];
    } else {
      assert s[m + n] == r.excl;
    }
  }

  /** A pair of delimiters with empty content, or with whitespace on an inner
      side, is not a match: the text is left as it is. */
  lemma SubKeepsUnformatted(r: Rule, x: string)
    requires ValidRule(r)
    requires forall m :: 0 <= m < |x| ==> x[m] != r.excl && x[m] != '\n'
    requires |x| == 0 || IsSpace(x[0]) || IsSpace(x[|x| - 1])
    ensures Sub(r, r.delim + x + r.delim) == r.delim + x + r.delim
  {
    var s := r.delim + x + r.delim;
    forall m | 0 <= m < |s|
      ensures RuleAt(r, s, m).None?
    {
      NoRuleAtUnformatted(r, x, m);
    }
    SubFromNoMatch(r, s, 0);
  }

  /*** Padding formatted tokens: `_add_space_around_matches` ***/

  /** The patterns whose matches are padded: `_*bi*_` (any content but a
      newline), then `*b*`, `_i_` and `~s~`. */
  datatype Pattern = BoldItalic | Delimited(delim: char)

  const SpacingPatterns: seq<Pattern> := [BoldItalic, Delimited('*'), Delimited('_'), Delimited('~')]

  /** The single-character rule a `Delimited` pattern matches like. */
  function AsRule(d: char): Rule {
    Rule([d], d, false, [d], [d])
  }

  /** Where the lazy `(.+?)(?<!\s)\*_` ends when its content reaches `k`. */
  function BoldItalicClose(s: string, k: nat): (r: Option<nat>)
    requires 1 <= k <= |s|
    ensures r.Some? ==> k <= r.value && r.value + 2 <= |s| && s[r.value..r.value + 2] == "*_"
    decreases |s| - k
  {
    if k + 2 <= |s| && s[k..k + 2] == "*_" && !IsSpace(s[k - 1]) then Some(k)
    else if k < |s| && s[k] != '\n' then BoldItalicClose(s, k + 1)
    else None
  }

  /** The end of a match of the pattern at `i`. */
  function PatternAt(p: Pattern, s: string, i: nat): (e: Option<nat>)
    requires i <= |s|
    ensures e.Some? ==> i < e.value <= |s|
  {
    match p
    case Delimited(d) =>
      (match RuleAt(AsRule(d), s, i)
       case Some(k) => Some(k + 1)
       case None => None)
    case BoldItalic =>
      if i + 3 <= |s| && s[i..i + 2] == "_*" && !IsSpace(s[i + 2]) then
        match BoldItalicClose(s, i + 3)
        case Some(k) => Some(k + 2)
        case None => None
      else None
  }

  /** `not ch.isspace() and east_asian_width(ch) in ("W", "F")`. */
  predicate WideNonSpace(c: char, wide: WidthTable) {
    !IsSpace(c) && wide(c)
  }

  function SpaceIf(b: bool): string {
    if b then " " else ""
  }

  /** `_add_space_around_matches(s, p)` from `s[i..]`: each match is copied with
      a space before it when the character before is wide, and one after it
      when the character after is wide. */
  function SpacedFrom(p: Pattern, s: string, wide: WidthTable, i: nat): string
    requires i <= |s|
    decreases |s| - i
  {
    if i == |s| then ""
    else match PatternAt(p, s, i)
      case Some(e) =>
        SpaceIf(i > 0 && WideNonSpace(s[i - 1], wide)) + s[i..e]
        + SpaceIf(e < |s| && WideNonSpace(s[e], wide)) + SpacedFrom(p, s, wide, e)
      case None => [s[i]] + SpacedFrom(p, s, wide, i + 1)
  }

  function Spaced(p: Pattern, s: string, wide: WidthTable): string {
    SpacedFrom(p, s, wide, 0)
  }

  function ApplySpacing(ps: seq<Pattern>, s: string, wide: WidthTable): string {
    if ps == [] then s else Spaced(ps[|ps| - 1], ApplySpacing(ps[..|ps| - 1], s, wide), wide)
  }

  /** The characters of `out` not marked as inserted. */
  function Unmarked(out: string, inserted: seq<bool>): string
    requires |inserted| == |out|
  {
    if out == [] then "" else (if inserted[0] then "" else [out[0]]) + Unmarked(out[1..], inserted[1..])
  }

  lemma {:induction false} UnmarkedAppend(a: string, ia: seq<bool>, b: string, ib: seq<bool>)
    requires |ia| == |a| && |ib| == |b|
    ensures Unmarked(a + b, ia + ib) == Unmarked(a, ia) + Unmarked(b, ib)
    decreases |a|
  {
    if a == [] {
      assert a + b == b && ia + ib == ib;
    } else {
      assert (a + b)[1..] == a[1..] + b && (ia + ib)[1..] == ia[1..] + ib;
      UnmarkedAppend(a[1..], ia[1..], b, ib);
    }
  }

  /** No character marked. */
  function NoMarks(n: nat): (m: seq<bool>)
    ensures |m| == n && forall j :: 0 <= j < n ==> !m[j]
  {
    if n == 0 then [] else [false] + NoMarks(n - 1)
  }

  lemma {:induction false} UnmarkedNone(a: string)
    ensures Unmarked(a, NoMarks(|a|)) == a
  {
    if a != [] {
      assert NoMarks(|a|)[1..] == NoMarks(|a| - 1);
      UnmarkedNone(a[1..]);
      assert a == [a[0]] + a[1..];
    }
  }

  /** `inserted` marks only spaces of `out`. */
  predicate MarksSpaces(out: string, inserted: seq<bool>) {
    |inserted| == |out| && forall j :: 0 <= j < |inserted| && inserted[j] ==> out[j] == ' '
  }

  lemma MarksSpacesAppend(a: string, ia: seq<bool>, b: string, ib: seq<bool>)
    requires MarksSpaces(a, ia) && MarksSpaces(b, ib)
    ensures MarksSpaces(a + b, ia + ib)
  {
    forall j | 0 <= j < |ia + ib| && (ia + ib)[j]
      ensures (a + b)[j] == ' '
    {
      if j >= |a| {
        assert (ia + ib)[j] == ib[j - |a|];
      }
    }
  }

  /** The padding is a marked space. */
  lemma MarkSpace(b: bool) returns (inserted: seq<bool>)
    ensures MarksSpaces(SpaceIf(b), inserted) && Unmarked(SpaceIf(b), inserted) == ""
  {
    inserted := if b then [true] else [];
    if b {
      assert SpaceIf(b)[1..] == "";
    }
  }

  /** A match with its padding: only the padding is marked. */
  lemma MarkPadding(before: bool, mid: string, after: bool) returns (inserted: seq<bool>)
    ensures MarksSpaces(SpaceIf(before) + mid + SpaceIf(after), inserted)
    ensures Unmarked(SpaceIf(before) + mid + SpaceIf(after), inserted) == mid
  {
    var ib := MarkSpace(before);
    var ia := MarkSpace(after);
    var im := NoMarks(|mid|);
    inserted := ib + im + ia;
    MarksSpacesAppend(SpaceIf(before), ib, mid, im);
    MarksSpacesAppend(SpaceIf(before) + mid, ib + im, SpaceIf(after), ia);
    UnmarkedAppend(SpaceIf(before) + mid, ib + im, SpaceIf(after), ia);
    UnmarkedAppend(SpaceIf(before), ib, mid, im);
    UnmarkedNone(mid);
  }

  lemma {:induction false} SpacedFromInsertsSpaces(p: Pattern, s: string, wide: WidthTable, i: nat)
    returns (inserted: seq<bool>)
    requires i <= |s|
    ensures MarksSpaces(SpacedFrom(p, s, wide, i), inserted)
    ensures Unmarked(SpacedFrom(p, s, wide, i), inserted) == s[i..]
    decreases |s| - i
  {
    if i == |s| {
      return [];
    }
    var rest := SpacedFromInsertsSpaces(p, s, wide, NextFrom(p, s, i));
    inserted := MarkStep(p, s, wide, i, rest);
  }

  /** One step of the scan: the marks of the rest, after those of the step's output. */
  lemma MarkStep(p: Pattern, s: string, wide: WidthTable, i: nat, rest: seq<bool>) returns (inserted: seq<bool>)
    requires i < |s|
    requires MarksSpaces(SpacedFrom(p, s, wide, NextFrom(p, s, i)), rest)
    requires Unmarked(SpacedFrom(p, s, wide, NextFrom(p, s, i)), rest) == s[NextFrom(p, s, i)..]
    ensures MarksSpaces(SpacedFrom(p, s, wide, i), inserted)
    ensures Unmarked(SpacedFrom(p, s, wide, i), inserted) == s[i..]
  {
    SpacedFromStep(p, s, wide, i);
    match PatternAt(p, s, i)
    case Some(e) =>
      var before := i > 0 && WideNonSpace(s[i - 1], wide);
      var after := e < |s| && WideNonSpace(s[e], wide);
      var ip := MarkPadding(before, s[i..e], after);
      inserted := ip + rest;
      MarkJoin(SpaceIf(before) + s[i..e] + SpaceIf(after), ip, SpacedFrom(p, s, wide, e), rest);
      CutAt(s, i, e);
    case None =>
      inserted := [false] + rest;
      assert Unmarked([s[i]], [false]) == [s[i]] by {
        assert [s[i]][1..] == "";
      }
      MarkJoin([s[i]], [false], SpacedFrom(p, s, wide, i + 1), rest);
      CutOne(s, i);
  }

  /** Marks of two pieces, side by side. */
  lemma MarkJoin(a: string, ia: seq<bool>, b: string, ib: seq<bool>)
    requires MarksSpaces(a, ia) && MarksSpaces(b, ib)
    ensures MarksSpaces(a + b, ia + ib)
    ensures Unmarked(a + b, ia + ib) == Unmarked(a, ia) + Unmarked(b, ib)
  {
    MarksSpacesAppend(a, ia, b, ib);
    UnmarkedAppend(a, ia, b, ib);
  }

  /** Padding only inserts single spaces: removing the inserted characters,
      every one of them a space, gives back the input. */
  lemma SpacedInsertsSpaces(p: Pattern, s: string, wide: WidthTable) returns (inserted: seq<bool>)
    ensures MarksSpaces(Spaced(p, s, wide), inserted)
    ensures Unmarked(Spaced(p, s, wide), inserted) == s
  {
    inserted := SpacedFromInsertsSpaces(p, s, wide, 0);
  }

  /** Where the padding scan resumes after position `i`. */
  function NextFrom(p: Pattern, s: string, i: nat): (r: nat)
    requires i < |s|
    ensures i < r <= |s|
  {
    match PatternAt(p, s, i)
    case Some(e) => e
    case None => i + 1
  }

  lemma {:induction false} SpacedFromWithoutWide(p: Pattern, s: string, wide: WidthTable, i: nat)
    requires i <= |s|
    requires forall m :: 0 <= m < |s| ==> !wide(s[m])
    ensures SpacedFrom(p, s, wide, i) == s[i..]
    decreases |s| - i
  {
    if i < |s| {
      SpacedFromWithoutWide(p, s, wide, NextFrom(p, s, i));
      UnpaddedStep(p, s, wide, i);
    }
  }

  /** Without wide characters, one step of the scan copies what it passes over. */
  lemma UnpaddedStep(p: Pattern, s: string, wide: WidthTable, i: nat)
    requires i < |s|
    requires forall m :: 0 <= m < |s| ==> !wide(s[m])
    requires SpacedFrom(p, s, wide, NextFrom(p, s, i)) == s[NextFrom(p, s, i)..]
    ensures SpacedFrom(p, s, wide, i) == s[i..]
  {
    SpacedFromStep(p, s, wide, i);
    match PatternAt(p, s, i)
    case Some(e) =>
      assert !(i > 0 && WideNonSpace(s[i - 1], wide)) && !(e < |s| && WideNonSpace(s[e], wide));
      CutAt(s, i, e);
      Unpadded(s[i..e], s[e..]);
    case None =>
      CutOne(s, i);
  }

  lemma CutAt(s: string, i: nat, e: nat)
    requires i <= e <= |s|
    ensures s[i..] == s[i..e] + s[e..]
  {
  }

  lemma CutOne(s: string, i: nat)
    requires i < |s|
    ensures s[i..] == [s[i]] + s[i + 1..]
  {
  }

  lemma Unpadded(a: string, b: string)
    ensures SpaceIf(false) + a + SpaceIf(false) + b == a + b
  {
  }

  /** With no wide character in the text, padding changes nothing. */
  lemma SpacedWithoutWide(p: Pattern, s: string, wide: WidthTable)
    requires forall m :: 0 <= m < |s| ==> !wide(s[m])
    ensures Spaced(p, s, wide) == s
  {
    SpacedFromWithoutWide(p, s, wide, 0);
  }

  /** Characters every match of the pattern contains. */
  function PatternChars(p: Pattern): set<char> {
    match p
    case BoldItalic => {'_', '*'}
    case Delimited(d) => {d}
  }

  lemma {:induction false} SpacedFromWithoutDelimiter(p: Pattern, s: string, wide: WidthTable, i: nat, c: char)
    requires i <= |s|
    requires c in PatternChars(p) && forall m :: 0 <= m < |s| ==> s[m] != c
    requires p.Delimited? ==> !IsSpace(p.delim)
    ensures SpacedFrom(p, s, wide, i) == s[i..]
    decreases |s| - i
  {
    if i < |s| {
      assert PatternAt(p, s, i).None? by {
        if p.Delimited? && i + 1 <= |s| {
          assert s[i..i + 1][0] != [p.delim][0];
        }
        if p.BoldItalic? && i + 2 <= |s| {
          assert s[i..i + 2][0] != "_*"[0] || s[i..i + 2][1] != "_*"[1];
        }
      }
      SpacedFromWithoutDelimiter(p, s, wide, i + 1, c);
      assert s[i..] == [s[i]] + s[i + 1..];
    }
  }

  /** A text without one of the characters a pattern needs is not padded by it. */
  lemma SpacedWithoutDelimiter(p: Pattern, s: string, wide: WidthTable, c: char)
    requires c in PatternChars(p) && forall m :: 0 <= m < |s| ==> s[m] != c
    requires p.Delimited? ==> !IsSpace(p.delim)
    ensures Spaced(p, s, wide) == s
  {
    SpacedFromWithoutDelimiter(p, s, wide, 0, c);
  }

  /** A whole token of accepted content touches nothing, so it is not padded. */
  lemma SpacedKeepsWholeToken(d: char, x: string, wide: WidthTable)
    requires !IsSpace(d) && Content(x, d)
    ensures Spaced(Delimited(d), [d] + x + [d], wide) == [d] + x + [d]
  {
    var s := [d] + x + [d];
    assert s[..1] == [d] && s[1..1 + |x|] == x && s[1 + |x|..] == [d];
    assert s[1 + |x|] == d;
    assert StopFrom(s, 1, d) == Some(1 + |x|);
    assert RuleAt(AsRule(d), s, 0) == Some(1 + |x|);
    assert SpacedFrom(Delimited(d), s, wide, |s|) == "";
    assert s[0..|s|] == s;
  }

  /** A whole token between two other characters is padded on a side exactly
      when the character on that side is wide and not whitespace. */
  lemma SpacedPadsToken(d: char, u: char, x: string, w: char, wide: WidthTable)
    requires !IsSpace(d) && Content(x, d) && u != d && w != d
    ensures Spaced(Delimited(d), [u] + ([d] + x + [d]) + [w], wide)
         == [u] + SpaceIf(WideNonSpace(u, wide)) + ([d] + x + [d]) + SpaceIf(WideNonSpace(w, wide)) + [w]
  {
    var p, t := Delimited(d), [d] + x + [d];
    var s, e := [u] + t + [w], |x| + 3;
    var before, after := SpaceIf(WideNonSpace(u, wide)), SpaceIf(WideNonSpace(w, wide));
    TokenPlaces(d, u, x, w);
    TokenMatches(d, u, x, w);
    SpacedFromStep(p, s, wide, e);
    assert SpacedFrom(p, s, wide, e + 1) == "";
    assert SpacedFrom(p, s, wide, e) == [w];
    SpacedFromStep(p, s, wide, 1);
    assert SpacedFrom(p, s, wide, 1) == before + t + after + [w];
    SpacedFromStep(p, s, wide, 0);
    AppendFive([u], before, t, after, [w]);
  }

  /** The padding pattern finds the token and only the token. */
  lemma TokenMatches(d: char, u: char, x: string, w: char)
    requires !IsSpace(d) && Content(x, d) && u != d && w != d
    ensures var s, e := [u] + ([d] + x + [d]) + [w], |x| + 3;
      && PatternAt(Delimited(d), s, 0).None?
      && PatternAt(Delimited(d), s, 1) == Some(e)
      && PatternAt(Delimited(d), s, e).None?
  {
    var s, e := [u] + ([d] + x + [d]) + [w], |x| + 3;
    TokenPlaces(d, u, x, w);
    assert StopFrom(s, 2, d) == Some(e - 1);
    assert RuleAt(AsRule(d), s, 1) == Some(e - 1);
  }

  lemma AppendFive(a: string, b: string, c: string, d: string, f: string)
    ensures a + (b + c + d + f) == a + b + c + d + f
  {
  }

  /** Where the pieces of `[u] + ([d] + x + [d]) + [w]` sit. */
  lemma TokenPlaces(d: char, u: char, x: string, w: char)
    ensures var s, e := [u] + ([d] + x + [d]) + [w], |x| + 3;
      && |s| == e + 1 && s[0] == u && s[1] == d && s[e - 1] == d && s[e] == w
      && s[1..e] == [d] + x + [d] && s[0..1] == [u] && s[e..e + 1] == [w]
      && forall m :: 2 <= m < e - 1 ==> s[m] == x[m - 2]
  {
    var s, e := [u] + ([d] + x + [d]) + [w], |x| + 3;
    assert s[1..e] == [d] + x + [d];
  }

  lemma {:induction false} SpacedFromNoMatch(p: Pattern, s: string, wide: WidthTable, i: nat)
    requires i <= |s|
    requires forall m :: i <= m < |s| ==> PatternAt(p, s, m).None?
    ensures SpacedFrom(p, s, wide, i) == s[i..]
    decreases |s| - i
  {
    if i < |s| {
      SpacedFromNoMatch(p, s, wide, i + 1);
      assert s[i..] == [s[i]] + s[i + 1..];
    }
  }

  lemma AppendAssoc(a: string, b: string, c: string)
    ensures (a + b) + c == a + (b + c)
  {
  }

  /** One step of the padding scan. */
  lemma SpacedFromStep(p: Pattern, s: string, wide: WidthTable, i: nat)
    requires i < |s|
    ensures PatternAt(p, s, i).Some? ==>
      var e := PatternAt(p, s, i).value;
      SpacedFrom(p, s, wide, i)
      == SpaceIf(i > 0 && WideNonSpace(s[i - 1], wide)) + s[i..e]
         + SpaceIf(e < |s| && WideNonSpace(s[e], wide)) + SpacedFrom(p, s, wide, e)
    ensures PatternAt(p, s, i).None? ==> SpacedFrom(p, s, wide, i) == [s[i]] + SpacedFrom(p, s, wide, i + 1)
  {
  }

  /*** The two conversions ***/

  /** One part as `slack_to_markdown` emits it. */
  function SlackToMarkdownPart(part: string): string {
    if IsCode(part) then part else ApplyRules(SlackToMarkdownRules, part)
  }

  function SlackToMarkdownParts(parts: seq<string>): string {
    if parts == [] then "" else SlackToMarkdownParts(parts[..|parts| - 1]) + SlackToMarkdownPart(parts[|parts| - 1])
  }

  /** `slack_to_markdown(content)`. */
  function SlackToMarkdownOf(content: string): string {
    SlackToMarkdownParts(Split(content))
  }

  /** A non-code part as `markdown_to_slack` emits it: the five rewrites,
      then the four paddings. */
  function MarkdownToSlackText(part: string, wide: WidthTable): string {
    ApplySpacing(SpacingPatterns, ApplyRules(MarkdownToSlackRules, part), wide)
  }

  /** Part `idx` as `markdown_to_slack` emits it after `acc`: a code part gets
      a space before it when the last emitted character is wide, and one after
      it when the next part starts with a wide character. */
  function MarkdownToSlackPiece(parts: seq<string>, idx: nat, acc: string, wide: WidthTable): string
    requires idx < |parts|
  {
    if IsCode(parts[idx]) then
      SpaceIf(|acc| > 0 && WideNonSpace(acc[|acc| - 1], wide))
      + parts[idx]
      + SpaceIf(idx + 1 < |parts| && |parts[idx + 1]| > 0 && WideNonSpace(parts[idx + 1][0], wide))
    else MarkdownToSlackText(parts[idx], wide)
  }

  /** The loop from part `idx` on, after emitting `acc`; what was emitted
      stays at the front. */
  function MarkdownToSlackFrom(parts: seq<string>, idx: nat, acc: string, wide: WidthTable): (r: string)
    requires idx <= |parts|
    ensures acc <= r
    decreases |parts| - idx
  {
    if idx == |parts| then acc
    else
      var piece := MarkdownToSlackPiece(parts, idx, acc, wide);
      var rest := MarkdownToSlackFrom(parts, idx + 1, acc + piece, wide);
      PrefixThrough(acc, piece, rest);
      rest
  }

  /** `markdown_to_slack(content)`. */
  function MarkdownToSlackOf(content: string, wide: WidthTable): string {
    MarkdownToSlackFrom(Split(content), 0, "", wide)
  }

  /** `slack_to_markdown`: the loop over the parts, rebinding each non-code
      part through the three rewrites and appending it to the result. */
  method SlackToMarkdown(content: string) returns (result: string)
    ensures result == SlackToMarkdownOf(content)
  {
    var parts := Split(content);
    result := "";
    for idx := 0 to |parts|
      invariant result == SlackToMarkdownParts(parts[..idx])
    {
      var part := parts[idx];
      if !IsCode(part) {
        part := ConvertForMarkdown(part);
      }
      PartsPrefix(parts, idx);
      result := result + part;
    }
    assert parts[..|parts|] == parts;
  }

  lemma PartsPrefix(parts: seq<string>, idx: nat)
    requires idx < |parts|
    ensures SlackToMarkdownParts(parts[..idx + 1]) == SlackToMarkdownParts(parts[..idx]) + SlackToMarkdownPart(parts[idx])
  {
    assert parts[..idx + 1][..idx] == parts[..idx];
  }

  /** The body of the `if` in `slack_to_markdown`'s loop: the three rewrites,
      each rebinding `part`. */
  method ConvertForMarkdown(text: string) returns (part: string)
    ensures part == ApplyRules(SlackToMarkdownRules, text)
  {
    part := text;
    for j := 0 to |SlackToMarkdownRules|
      invariant part == ApplyRules(SlackToMarkdownRules[..j], text)
    {
      RulesPrefix(SlackToMarkdownRules, j, text);
      part := Sub(SlackToMarkdownRules[j], part);
    }
    assert SlackToMarkdownRules[..|SlackToMarkdownRules|] == SlackToMarkdownRules;
  }

  lemma RulesPrefix(rules: seq<Rule>, j: nat, s: string)
    requires j < |rules|
    ensures ApplyRules(rules[..j + 1], s) == Sub(rules[j], ApplyRules(rules[..j], s))
  {
    assert rules[..j + 1][..j] == rules[..j];
  }

  /** `_add_space_around_matches(text, pattern)`: copy the text, padding each
      match with a space on a side that touches a wide character. */
  method AddSpaceAroundMatches(text: string, p: Pattern, wide: WidthTable) returns (out: string)
    ensures out == Spaced(p, text, wide)
  {
    out := "";
    var last := 0;
    while last < |text|
      invariant last <= |text|
      invariant out + SpacedFrom(p, text, wide, last) == Spaced(p, text, wide)
      decreases |text| - last
    {
      var m := PatternAt(p, text, last);
      if m.Some? {
        var end := m.value;
        var leftSpace := last > 0 && WideNonSpace(text[last - 1], wide);
        var rightSpace := end < |text| && WideNonSpace(text[end], wide);
        var piece := SpaceIf(leftSpace) + text[last..end] + SpaceIf(rightSpace);
        AdvancePastMatch(p, text, wide, last, out);
        out := out + piece;
        last := end;
      } else {
        AdvancePastChar(p, text, wide, last, out);
        out := out + [text[last]];
        last := last + 1;
      }
    }
  }

  /** The padded match appended to the output leaves the rest of the scan to do. */
  lemma AdvancePastMatch(p: Pattern, text: string, wide: WidthTable, last: nat, out: string)
    requires last < |text| && PatternAt(p, text, last).Some?
    requires out + SpacedFrom(p, text, wide, last) == Spaced(p, text, wide)
    ensures var e := PatternAt(p, text, last).value;
      out + (SpaceIf(last > 0 && WideNonSpace(text[last - 1], wide)) + text[last..e]
             + SpaceIf(e < |text| && WideNonSpace(text[e], wide)))
      + SpacedFrom(p, text, wide, e) == Spaced(p, text, wide)
  {
    var e := PatternAt(p, text, last).value;
    SpacedFromStep(p, text, wide, last);
    AppendAssoc(out, SpaceIf(last > 0 && WideNonSpace(text[last - 1], wide)) + text[last..e]
             + SpaceIf(e < |text| && WideNonSpace(text[e], wide)), SpacedFrom(p, text, wide, e));
  }

  /** A character outside any match, copied to the output, leaves the rest of the scan to do. */
  lemma AdvancePastChar(p: Pattern, text: string, wide: WidthTable, last: nat, out: string)
    requires last < |text| && PatternAt(p, text, last).None?
    requires out + SpacedFrom(p, text, wide, last) == Spaced(p, text, wide)
    ensures out + [text[last]] + SpacedFrom(p, text, wide, last + 1) == Spaced(p, text, wide)
  {
    SpacedFromStep(p, text, wide, last);
    AppendAssoc(out, [text[last]], SpacedFrom(p, text, wide, last + 1));
  }

  /** `markdown_to_slack`: the loop over the parts; code parts are padded,
      other parts go through the five rewrites and the four paddings. */
  method MarkdownToSlack(content: string, wide: WidthTable) returns (result: string)
    ensures result == MarkdownToSlackOf(content, wide)
  {
    var parts := Split(content);
    result := "";
    for idx := 0 to |parts|
      invariant MarkdownToSlackFrom(parts, idx, result, wide) == MarkdownToSlackOf(content, wide)
    {
      var part := parts[idx];
      if IsCode(part) {
        var leftSpace := |result| > 0 && WideNonSpace(result[|result| - 1], wide);
        var rightSpace := idx + 1 < |parts| && |parts[idx + 1]| > 0 && WideNonSpace(parts[idx + 1][0], wide);
        assert SpaceIf(leftSpace) + part + SpaceIf(rightSpace) == MarkdownToSlackPiece(parts, idx, result, wide);
        result := result + (SpaceIf(leftSpace) + part + SpaceIf(rightSpace));
      } else {
        part := ConvertForSlack(part, wide);
        assert part == MarkdownToSlackPiece(parts, idx, result, wide);
        result := result + part;
      }
    }
  }

  /** The body of the `else` branch of `markdown_to_slack`'s loop: the five
      rewrites, then the four paddings, each rebinding `part`. */
  method ConvertForSlack(text: string, wide: WidthTable) returns (part: string)
    ensures part == MarkdownToSlackText(text, wide)
  {
    part := text;
    for j := 0 to |MarkdownToSlackRules|
      invariant part == ApplyRules(MarkdownToSlackRules[..j], text)
    {
      RulesPrefix(MarkdownToSlackRules, j, text);
      part := Sub(MarkdownToSlackRules[j], part);
    }
    assert MarkdownToSlackRules[..|MarkdownToSlackRules|] == MarkdownToSlackRules;
    ghost var rewritten := part;
    for j := 0 to |SpacingPatterns|
      invariant part == ApplySpacing(SpacingPatterns[..j], rewritten, wide)
    {
      assert SpacingPatterns[..j + 1][..j] == SpacingPatterns[..j];
      part := AddSpaceAroundMatches(part, SpacingPatterns[j], wide);
    }
    assert SpacingPatterns[..|SpacingPatterns|] == SpacingPatterns;
  }

  /*** What the conversions do ***/

  lemma {:induction false} ApplyRulesWithoutDelimiters(rules: seq<Rule>, s: string)
    requires forall k :: 0 <= k < |rules| ==> ValidRule(rules[k]) && NoneOf(s, {rules[k].excl})
    ensures ApplyRules(rules, s) == s
    decreases |rules|
  {
    if rules != [] {
      var last := rules[|rules| - 1];
      ApplyRulesWithoutDelimiters(rules[..|rules| - 1], s);
      assert NoneOf(s, {last.excl});
      SubWithoutDelimiter(last, s);
    }
  }

  function CharsOf(s: string): set<char> {
    set m | 0 <= m < |s| :: s[m]
  }

  lemma {:induction false} ApplySpacingWithoutDelimiters(ps: seq<Pattern>, s: string, wide: WidthTable)
    requires forall k :: 0 <= k < |ps| ==> !(PatternChars(ps[k]) <= CharsOf(s))
    requires forall k :: 0 <= k < |ps| ==> ps[k].Delimited? ==> !IsSpace(ps[k].delim)
    ensures ApplySpacing(ps, s, wide) == s
    decreases |ps|
  {
    if ps != [] {
      var last := ps[|ps| - 1];
      ApplySpacingWithoutDelimiters(ps[..|ps| - 1], s, wide);
      var c :| c in PatternChars(last) && c !in CharsOf(s);
      assert forall m :: 0 <= m < |s| ==> s[m] in CharsOf(s);
      SpacedWithoutDelimiter(last, s, wide, c);
    }
  }

  lemma {:induction false} SlackToMarkdownPartsUnchanged(parts: seq<string>)
    requires forall k :: 0 <= k < |parts| ==> SlackToMarkdownPart(parts[k]) == parts[k]
    ensures SlackToMarkdownParts(parts) == Concat(parts)
    decreases |parts|
  {
    if parts != [] {
      var init := parts[..|parts| - 1];
      SlackToMarkdownPartsUnchanged(init);
      ConcatAppend(init, [parts[|parts| - 1]]);
      assert init + [parts[|parts| - 1]] == parts;
      assert Concat([parts[|parts| - 1]]) == parts[|parts| - 1] by {
        assert [parts[|parts| - 1]][1..] == [];
      }
    }
  }

  /** Text with no `*`, `_` or `~` outside or inside code comes back unchanged
      from `slack_to_markdown`. */
  lemma SlackToMarkdownWithoutDelimiters(content: string)
    requires NoneOf(content, {'*', '_', '~'})
    ensures SlackToMarkdownOf(content) == content
  {
    var parts := Split(content);
    SplitConcat(content);
    forall k | 0 <= k < |parts|
      ensures SlackToMarkdownPart(parts[k]) == parts[k]
    {
      ConcatNoneOf(parts, {'*', '_', '~'}, k);
      if !IsCode(parts[k]) {
        ApplyRulesWithoutDelimiters(SlackToMarkdownRules, parts[k]);
      }
    }
    SlackToMarkdownPartsUnchanged(parts);
  }

  /** A text part with no `*`, `_` or `~` is unchanged by the rewrites and the
      paddings of `markdown_to_slack`. */
  lemma MarkdownToSlackTextWithoutDelimiters(part: string, wide: WidthTable)
    requires NoneOf(part, {'*', '_', '~'})
    ensures MarkdownToSlackText(part, wide) == part
  {
    ApplyRulesWithoutDelimiters(MarkdownToSlackRules, part);
    assert forall c :: c in CharsOf(part) ==> c != '*' && c != '_' && c != '~';
    ApplySpacingWithoutDelimiters(SpacingPatterns, part, wide);
  }

  /** Text with no backtick and no `*`, `_` or `~` comes back unchanged from
      `markdown_to_slack`, whatever the width table says. */
  lemma MarkdownToSlackWithoutDelimiters(content: string, wide: WidthTable)
    requires NoneOf(content, {'`', '*', '_', '~'})
    ensures MarkdownToSlackOf(content, wide) == content
  {
    SplitWithoutBacktick(content);
    MarkdownToSlackTextWithoutDelimiters(content, wide);
    assert MarkdownToSlackOf(content, wide)
        == MarkdownToSlackFrom([content], 1, "" + MarkdownToSlackPiece([content], 0, "", wide), wide);
  }

  /** A plain word: what the token tests put between delimiters. */
  predicate PlainWord(x: string) {
    && |x| > 0 && !IsSpace(x[0]) && !IsSpace(x[|x| - 1])
    && NoneOf(x, {'*', '_', '~', '`', '\n'})
  }

  /** `*`, `**`, `_` ... around a plain word. */
  function Wrap(d: string, x: string): string {
    d + x + d
  }

  /** The characters of a wrapped word: the delimiter's and the word's. */
  lemma WrapChars(d: string, x: string, c: char)
    requires NoneOf(d, {c}) && NoneOf(x, {c})
    ensures NoneOf(Wrap(d, x), {c})
  {
    var s := Wrap(d, x);
    forall m | 0 <= m < |s|
      ensures s[m] != c
    {
      if m < |d| {
        assert s[m] == d[m];
      } else if m < |d| + |x| {
        assert s[m] == x[m - |d|];
      } else {
        assert s[m] == d[m - |d| - |x|];
      }
    }
  }

  lemma ApplyThree(rules: seq<Rule>, s: string)
    requires |rules| == 3
    ensures ApplyRules(rules, s) == Sub(rules[2], Sub(rules[1], Sub(rules[0], s)))
  {
    ApplyFirst(rules[..1], s);
    assert rules[..2][..1] == rules[..1];
  }

  lemma ApplyFirst(rules: seq<Rule>, s: string)
    requires |rules| == 1
    ensures ApplyRules(rules, s) == Sub(rules[0], s)
  {
    assert rules[..0] == [];
  }

  lemma ApplyFive(rules: seq<Rule>, s: string)
    requires |rules| == 5
    ensures ApplyRules(rules, s)
         == Sub(rules[4], Sub(rules[3], Sub(rules[2], Sub(rules[1], Sub(rules[0], s)))))
  {
    ApplyThree(rules[..3], s);
    assert rules[..4][..3] == rules[..3];
  }

  /** Three rewrites in a row, each step known. */
  lemma ChainThree(rules: seq<Rule>, s0: string, s1: string, s2: string, s3: string)
    requires |rules| == 3
    requires Sub(rules[0], s0) == s1 && Sub(rules[1], s1) == s2 && Sub(rules[2], s2) == s3
    ensures ApplyRules(rules, s0) == s3
  {
    ApplyThree(rules, s0);
  }

  /** Five rewrites in a row, each step known. */
  lemma ChainFive(rules: seq<Rule>, s0: string, s1: string, s2: string, s3: string, s4: string, s5: string)
    requires |rules| == 5
    requires Sub(rules[0], s0) == s1 && Sub(rules[1], s1) == s2 && Sub(rules[2], s2) == s3
    requires Sub(rules[3], s3) == s4 && Sub(rules[4], s4) == s5
    ensures ApplyRules(rules, s0) == s5
  {
    ApplyFive(rules, s0);
  }

  lemma ApplyFour(ps: seq<Pattern>, s: string, wide: WidthTable)
    requires |ps| == 4
    ensures ApplySpacing(ps, s, wide) == Spaced(ps[3], Spaced(ps[2], Spaced(ps[1], Spaced(ps[0], s, wide), wide), wide), wide)
  {
    var a1 := Spaced(ps[0], s, wide);
    var a2 := Spaced(ps[1], a1, wide);
    var a3 := Spaced(ps[2], a2, wide);
    assert ps[..1][..0] == [];
    assert ApplySpacing(ps[..1], s, wide) == a1;
    assert ps[..2][..1] == ps[..1];
    assert ApplySpacing(ps[..2], s, wide) == a2;
    assert ps[..3][..2] == ps[..2];
    assert ApplySpacing(ps[..3], s, wide) == a3;
  }

  /** A text without backticks converts as its one non-code part. */
  lemma SlackToMarkdownOfText(s: string)
    requires NoneOf(s, {'`'}) && |s| > 0
    ensures SlackToMarkdownOf(s) == ApplyRules(SlackToMarkdownRules, s)
  {
    SplitWithoutBacktick(s);
    assert !IsCode(s);
    assert SlackToMarkdownParts([s]) == SlackToMarkdownParts([s][..0]) + SlackToMarkdownPart(s);
    assert [s][..0] == [];
  }

  lemma MarkdownToSlackOfText(s: string, wide: WidthTable)
    requires NoneOf(s, {'`'}) && |s| > 0
    ensures MarkdownToSlackOf(s, wide) == MarkdownToSlackText(s, wide)
  {
    SplitWithoutBacktick(s);
    assert MarkdownToSlackOf(s, wide) == MarkdownToSlackFrom([s], 1, "" + MarkdownToSlackPiece([s], 0, "", wide), wide);
  }

  /*** Code in the input is copied verbatim ***/

  lemma {:induction false} SlackToMarkdownPartsAppend(a: seq<string>, b: seq<string>)
    ensures SlackToMarkdownParts(a + b) == SlackToMarkdownParts(a) + SlackToMarkdownParts(b)
    decreases |b|
  {
    if b == [] {
      assert a + b == a;
    } else {
      var init := b[..|b| - 1];
      assert (a + b)[..|a + b| - 1] == a + init;
      SlackToMarkdownPartsAppend(a, init);
      AppendAssoc(SlackToMarkdownParts(a), SlackToMarkdownParts(init), SlackToMarkdownPart(b[|b| - 1]));
    }
  }

  /** The first character of a code match is a backtick. */
  lemma CodeStartsWithBacktick(c: string, post: string)
    requires CodeAt(c + post, 0) == Some(|c|)
    ensures IsCode(c) && CodeMatch(c)
  {
    assert c[0] == (c + post)[0] && c[|c| - 1] == (c + post)[|c| - 1];
  }

  /** `slack_to_markdown` rewrites the text before a code match, copies the
      match verbatim and converts the rest on its own. */
  lemma SlackToMarkdownKeepsCode(pre: string, c: string, post: string)
    requires NoneOf(pre, {'`'}) && CodeAt(c + post, 0) == Some(|c|)
    ensures SlackToMarkdownOf(pre + c + post)
         == ApplyRules(SlackToMarkdownRules, pre) + c + SlackToMarkdownOf(post)
  {
    SplitAroundCode(pre, c, post);
    CodeStartsWithBacktick(c, post);
    TextIsNotCode(pre);
    SlackToMarkdownTwoParts(pre, c, Split(post));
  }

  lemma TextIsNotCode(pre: string)
    requires NoneOf(pre, {'`'})
    ensures !IsCode(pre)
  {
    if |pre| > 0 {
      assert pre[0] != '`';
    }
  }

  lemma SlackToMarkdownTwoParts(pre: string, c: string, rest: seq<string>)
    requires !IsCode(pre) && IsCode(c)
    ensures SlackToMarkdownParts([pre, c] + rest)
         == ApplyRules(SlackToMarkdownRules, pre) + c + SlackToMarkdownParts(rest)
  {
    var a := ApplyRules(SlackToMarkdownRules, pre);
    SlackToMarkdownPartsAppend([pre, c], rest);
    assert [pre, c][..1] == [pre] && [pre][..0] == [];
    assert SlackToMarkdownParts([pre]) == a by {
      assert SlackToMarkdownParts([pre]) == "" + a;
      assert "" + a == a;
    }
    assert SlackToMarkdownParts([pre, c]) == a + c;
  }

  /** Inline code is copied verbatim by `slack_to_markdown`, whatever `*`, `_`
      or `~` it holds. */
  lemma SlackToMarkdownKeepsInlineCode(pre: string, x: string, post: string)
    requires NoneOf(pre, {'`'}) && InlineBody(x)
    ensures SlackToMarkdownOf(pre + InlineCode(x) + post)
         == ApplyRules(SlackToMarkdownRules, pre) + InlineCode(x) + SlackToMarkdownOf(post)
  {
    InlineCodeAt(x, post);
    SlackToMarkdownKeepsCode(pre, InlineCode(x), post);
  }

  /** A fenced block is copied verbatim by `slack_to_markdown`, whatever `*`,
      `_` or `~` it holds. */
  lemma SlackToMarkdownKeepsFencedCode(pre: string, y: string, post: string)
    requires NoneOf(pre, {'`'}) && BlockBody(y)
    ensures SlackToMarkdownOf(pre + FencedCode(y) + post)
         == ApplyRules(SlackToMarkdownRules, pre) + FencedCode(y) + SlackToMarkdownOf(post)
  {
    FencedCodeAt(y, post);
    SlackToMarkdownKeepsCode(pre, FencedCode(y), post);
  }

  lemma PrefixThrough(a: string, b: string, r: string)
    requires a + b <= r
    ensures a <= r
  {
    assert (a + b)[..|a|] == a;
  }

  /** The first two steps of `markdown_to_slack` on text followed by a code match. */
  lemma MarkdownToSlackFirstTwo(pre: string, c: string, post: string, wide: WidthTable)
    requires NoneOf(pre, {'`'}) && CodeAt(c + post, 0) == Some(|c|)
    ensures var parts, t := [pre, c] + Split(post), MarkdownToSlackText(pre, wide);
      MarkdownToSlackOf(pre + c + post, wide)
      == MarkdownToSlackFrom(parts, 2, t + SpaceIf(|t| > 0 && WideNonSpace(t[|t| - 1], wide)) + c
           + SpaceIf(|Split(post)[0]| > 0 && WideNonSpace(Split(post)[0][0], wide)), wide)
  {
    SplitAroundCode(pre, c, post);
    CodeStartsWithBacktick(c, post);
    TextIsNotCode(pre);
    SplitNonEmpty(post);
    MarkdownToSlackTwoParts(pre, c, Split(post), wide);
  }

  lemma SplitNonEmpty(s: string)
    ensures |Split(s)| > 0
  {
    assert |Split(s)| % 2 == 1;
  }

  lemma MarkdownToSlackTwoParts(pre: string, c: string, rest: seq<string>, wide: WidthTable)
    requires !IsCode(pre) && IsCode(c) && |rest| > 0
    ensures var parts, t := [pre, c] + rest, MarkdownToSlackText(pre, wide);
      MarkdownToSlackFrom(parts, 0, "", wide)
      == MarkdownToSlackFrom(parts, 2, t + SpaceIf(|t| > 0 && WideNonSpace(t[|t| - 1], wide)) + c
           + SpaceIf(|rest[0]| > 0 && WideNonSpace(rest[0][0], wide)), wide)
  {
    var parts, t := [pre, c] + rest, MarkdownToSlackText(pre, wide);
    var left := SpaceIf(|t| > 0 && WideNonSpace(t[|t| - 1], wide));
    var right := SpaceIf(|rest[0]| > 0 && WideNonSpace(rest[0][0], wide));
    assert parts[0] == pre && parts[1] == c && parts[2] == rest[0];
    FromStep(parts, 0, "", wide);
    assert "" + MarkdownToSlackPiece(parts, 0, "", wide) == t;
    FromStep(parts, 1, t, wide);
    assert MarkdownToSlackPiece(parts, 1, t, wide) == left + c + right;
    AppendAssoc(t, left, c);
    AppendAssoc(t, left + c, right);
  }

  /** One step of the loop of `markdown_to_slack`. */
  lemma FromStep(parts: seq<string>, idx: nat, acc: string, wide: WidthTable)
    requires idx < |parts|
    ensures MarkdownToSlackFrom(parts, idx, acc, wide)
         == MarkdownToSlackFrom(parts, idx + 1, acc + MarkdownToSlackPiece(parts, idx, acc, wide), wide)
  {
  }

  /** `markdown_to_slack` emits the converted text before a code match, then a
      space exactly when that text ends in a wide non-space character, then
      the match verbatim. */
  lemma MarkdownToSlackKeepsCode(pre: string, c: string, post: string, wide: WidthTable)
    requires NoneOf(pre, {'`'}) && CodeAt(c + post, 0) == Some(|c|)
    ensures var t := MarkdownToSlackText(pre, wide);
      t + SpaceIf(|t| > 0 && WideNonSpace(t[|t| - 1], wide)) + c <= MarkdownToSlackOf(pre + c + post, wide)
  {
    var parts, t := [pre, c] + Split(post), MarkdownToSlackText(pre, wide);
    var head := t + SpaceIf(|t| > 0 && WideNonSpace(t[|t| - 1], wide)) + c;
    var right := SpaceIf(|Split(post)[0]| > 0 && WideNonSpace(Split(post)[0][0], wide));
    MarkdownToSlackFirstTwo(pre, c, post, wide);
    assert (head + right)[..|head|] == head;
  }

  lemma MarkdownToSlackKeepsInlineCode(pre: string, x: string, post: string, wide: WidthTable)
    requires NoneOf(pre, {'`'}) && InlineBody(x)
    ensures var t := MarkdownToSlackText(pre, wide);
      t + SpaceIf(|t| > 0 && WideNonSpace(t[|t| - 1], wide)) + InlineCode(x)
      <= MarkdownToSlackOf(pre + InlineCode(x) + post, wide)
  {
    InlineCodeAt(x, post);
    MarkdownToSlackKeepsCode(pre, InlineCode(x), post, wide);
  }

  lemma MarkdownToSlackKeepsFencedCode(pre: string, y: string, post: string, wide: WidthTable)
    requires NoneOf(pre, {'`'}) && BlockBody(y)
    ensures var t := MarkdownToSlackText(pre, wide);
      t + SpaceIf(|t| > 0 && WideNonSpace(t[|t| - 1], wide)) + FencedCode(y)
      <= MarkdownToSlackOf(pre + FencedCode(y) + post, wide)
  {
    FencedCodeAt(y, post);
    MarkdownToSlackKeepsCode(pre, FencedCode(y), post, wide);
  }

  /** A code match between two texts without backticks: the converted text,
      a space exactly when it ends in a wide non-space character, the match,
      a space exactly when the text after starts with one, the converted text after. */
  lemma MarkdownToSlackCodeInText(pre: string, c: string, post: string, wide: WidthTable)
    requires NoneOf(pre, {'`'}) && NoneOf(post, {'`'}) && CodeAt(c + post, 0) == Some(|c|)
    ensures var t := MarkdownToSlackText(pre, wide);
      MarkdownToSlackOf(pre + c + post, wide)
      == t + SpaceIf(|t| > 0 && WideNonSpace(t[|t| - 1], wide)) + c
         + SpaceIf(|post| > 0 && WideNonSpace(post[0], wide)) + MarkdownToSlackText(post, wide)
  {
    var t := MarkdownToSlackText(pre, wide);
    var acc := t + SpaceIf(|t| > 0 && WideNonSpace(t[|t| - 1], wide)) + c
               + SpaceIf(|post| > 0 && WideNonSpace(post[0], wide));
    SplitWithoutBacktick(post);
    MarkdownToSlackFirstTwo(pre, c, post, wide);
    var parts := [pre, c] + [post];
    assert parts[2] == post && !IsCode(post) by {
      if |post| > 0 {
        assert post[0] != '`';
      }
    }
    assert MarkdownToSlackFrom(parts, 2, acc, wide)
        == MarkdownToSlackFrom(parts, 3, acc + MarkdownToSlackText(post, wide), wide);
  }

  /** Between plain texts, a code match is padded on a side exactly when the
      neighbouring character on that side is wide and not whitespace. */
  lemma MarkdownToSlackPadsCode(pre: string, c: string, post: string, wide: WidthTable)
    requires NoneOf(pre, {'`', '*', '_', '~'}) && NoneOf(post, {'`', '*', '_', '~'})
    requires CodeAt(c + post, 0) == Some(|c|)
    ensures MarkdownToSlackOf(pre + c + post, wide)
         == pre + SpaceIf(|pre| > 0 && WideNonSpace(pre[|pre| - 1], wide)) + c
            + SpaceIf(|post| > 0 && WideNonSpace(post[0], wide)) + post
  {
    MarkdownToSlackTextWithoutDelimiters(pre, wide);
    MarkdownToSlackTextWithoutDelimiters(post, wide);
    MarkdownToSlackCodeInText(pre, c, post, wide);
  }

  /** A body with no backtick at all is a valid block body. */
  lemma BlockBodyWithoutBacktick(y: string)
    requires |y| > 0 && NoneOf(y, {'`'})
    ensures BlockBody(y)
  {
    forall k | 0 <= k < |y|
      ensures !TripleTick(y, k)
    {
      if TripleTick(y, k) {
        FenceChars(y, k);
      }
    }
  }

  /** The inputs of the tests of `slack_to_markdown` on code: "Inline code
      `*text*, _text_ and ~text~` shouldn't be changed." and the same words
      with a code block in place of the inline code. */
  const CodeTestText: string := "*text*, _text_ and ~text~"
  const InlineCodeTest: string := "Inline code " + InlineCode(CodeTestText) + " shouldn't be changed."
  const BlockCodeTest: string := "Code block " + FencedCode(CodeTestText) + " shouldn't be changed."

  /** What the test inputs hold and do not hold. */
  lemma CodeTestPieces()
    ensures NoneOf("Inline code ", {'`', '*', '_', '~'})
    ensures NoneOf("Code block ", {'`', '*', '_', '~'})
    ensures NoneOf(" shouldn't be changed.", {'*', '_', '~'})
    ensures InlineBody(CodeTestText) && BlockBody(CodeTestText)
  {
    BlockBodyWithoutBacktick(CodeTestText);
  }

  /** `slack_to_markdown` leaves inline code holding `*`, `_` and `~` alone,
      as its tests expect. */
  lemma SlackToMarkdownInlineCodeTest()
    ensures SlackToMarkdownOf(InlineCodeTest) == InlineCodeTest
  {
    CodeTestPieces();
    InlineCodeAt(CodeTestText, " shouldn't be changed.");
    SlackToMarkdownPlainAround("Inline code ", InlineCode(CodeTestText), " shouldn't be changed.");
  }

  /** The same for a code block. */
  lemma SlackToMarkdownBlockCodeTest()
    ensures SlackToMarkdownOf(BlockCodeTest) == BlockCodeTest
  {
    CodeTestPieces();
    FencedCodeAt(CodeTestText, " shouldn't be changed.");
    SlackToMarkdownPlainAround("Code block ", FencedCode(CodeTestText), " shouldn't be changed.");
  }

  /** The inputs of the tests of `markdown_to_slack` on code, with Markdown
      markers inside the code. */
  const MarkdownCodeText: string := "**text**, __text__, " + "*text*, _text_ and ~~text~~"
  const MarkdownInlineCodeTest: string := "Inline code " + InlineCode(MarkdownCodeText) + " shouldn't be changed."
  const MarkdownBlockCodeTest: string := "Code block " + FencedCode(MarkdownCodeText) + " shouldn't be changed."

  lemma MarkdownCodeTestPieces()
    ensures NoneOf(" shouldn't be changed.", {'`', '*', '_', '~'}) && IsSpace(" shouldn't be changed."[0])
    ensures IsSpace("Inline code "[|"Inline code "| - 1]) && IsSpace("Code block "[|"Code block "| - 1])
    ensures InlineBody(MarkdownCodeText) && BlockBody(MarkdownCodeText)
  {
    NoneOfAppend("**text**, __text__, ", "*text*, _text_ and ~~text~~", {'`', '\n'});
    BlockBodyWithoutBacktick(MarkdownCodeText);
  }

  lemma NoneOfAppend(a: string, b: string, cs: set<char>)
    requires NoneOf(a, cs) && NoneOf(b, cs)
    ensures NoneOf(a + b, cs)
  {
    forall k | 0 <= k < |a + b|
      ensures (a + b)[k] !in cs
    {
      if k >= |a| {
        assert (a + b)[k] == b[k - |a|];
      }
    }
  }

  /** `markdown_to_slack` leaves inline code and a code block holding Markdown
      markers alone, as its tests expect: the spaces around the code are
      already there, so none is added, whatever the width table. */
  lemma MarkdownToSlackInlineCodeTest(wide: WidthTable)
    ensures MarkdownToSlackOf(MarkdownInlineCodeTest, wide) == MarkdownInlineCodeTest
  {
    CodeTestPieces();
    MarkdownCodeTestPieces();
    InlineCodeAt(MarkdownCodeText, " shouldn't be changed.");
    MarkdownToSlackSpacedCode("Inline code ", InlineCode(MarkdownCodeText), " shouldn't be changed.", wide);
  }

  lemma MarkdownToSlackBlockCodeTest(wide: WidthTable)
    ensures MarkdownToSlackOf(MarkdownBlockCodeTest, wide) == MarkdownBlockCodeTest
  {
    CodeTestPieces();
    MarkdownCodeTestPieces();
    FencedCodeAt(MarkdownCodeText, " shouldn't be changed.");
    MarkdownToSlackSpacedCode("Code block ", FencedCode(MarkdownCodeText), " shouldn't be changed.", wide);
  }

  /** Code that already has a space on each side gets no padding. */
  lemma MarkdownToSlackSpacedCode(pre: string, c: string, post: string, wide: WidthTable)
    requires NoneOf(pre, {'`', '*', '_', '~'}) && NoneOf(post, {'`', '*', '_', '~'})
    requires CodeAt(c + post, 0) == Some(|c|)
    requires |pre| > 0 && IsSpace(pre[|pre| - 1]) && |post| > 0 && IsSpace(post[0])
    ensures MarkdownToSlackOf(pre + c + post, wide) == pre + c + post
  {
    MarkdownToSlackPadsCode(pre, c, post, wide);
    assert !WideNonSpace(pre[|pre| - 1], wide) && !WideNonSpace(post[0], wide);
    NoPadding(pre, c, post);
  }

  lemma NoPadding(pre: string, c: string, post: string)
    ensures pre + SpaceIf(false) + c + SpaceIf(false) + post == pre + c + post
  {
    assert SpaceIf(false) == "";
    assert pre + "" == pre;
  }

  lemma SlackToMarkdownPlainAround(pre: string, c: string, post: string)
    requires NoneOf(pre, {'`', '*', '_', '~'}) && NoneOf(post, {'*', '_', '~'})
    requires CodeAt(c + post, 0) == Some(|c|)
    ensures SlackToMarkdownOf(pre + c + post) == pre + c + post
  {
    SlackToMarkdownKeepsCode(pre, c, post);
    ApplyRulesWithoutDelimiters(SlackToMarkdownRules, pre);
    SlackToMarkdownWithoutDelimiters(post);
  }

  /** `slack_to_markdown` on the three formatted words of the tests. */
  lemma SlackToMarkdownWords(x: string)
    requires PlainWord(x)
    ensures SlackToMarkdownOf(Wrap("*", x)) == Wrap("**", x)
    ensures SlackToMarkdownOf(Wrap("_", x)) == Wrap("*", x)
    ensures SlackToMarkdownOf(Wrap("~", x)) == Wrap("~~", x)
  {
    SlackToMarkdownBoldWord(x);
    SlackToMarkdownItalicWord(x);
    SlackToMarkdownStrikeWord(x);
  }

  lemma SlackToMarkdownBoldWord(x: string)
    requires PlainWord(x)
    ensures SlackToMarkdownOf(Wrap("*", x)) == Wrap("**", x)
  {
    WrapChars("*", x, '`');
    SlackToMarkdownOfText(Wrap("*", x));
    BoldWordStarToBold(x); BoldWordUnderscoreToItalic(x); BoldWordTildeToStrike(x);
    ChainThree(SlackToMarkdownRules, Wrap("*", x), Wrap("**", x), Wrap("**", x), Wrap("**", x));
  }

  lemma SlackToMarkdownItalicWord(x: string)
    requires PlainWord(x)
    ensures SlackToMarkdownOf(Wrap("_", x)) == Wrap("*", x)
  {
    WrapChars("_", x, '`');
    SlackToMarkdownOfText(Wrap("_", x));
    ItalicWordStarToBold(x); ItalicWordUnderscoreToItalic(x); ItalicWordTildeToStrike(x);
    ChainThree(SlackToMarkdownRules, Wrap("_", x), Wrap("_", x), Wrap("*", x), Wrap("*", x));
  }

  lemma SlackToMarkdownStrikeWord(x: string)
    requires PlainWord(x)
    ensures SlackToMarkdownOf(Wrap("~", x)) == Wrap("~~", x)
  {
    WrapChars("~", x, '`');
    SlackToMarkdownOfText(Wrap("~", x));
    StrikeWordStarToBold(x); StrikeWordUnderscoreToItalic(x); StrikeWordTildeToStrike(x);
    ChainThree(SlackToMarkdownRules, Wrap("~", x), Wrap("~", x), Wrap("~", x), Wrap("~~", x));
  }

  /** `StarToBold` rewrites the word. */
  lemma BoldWordStarToBold(x: string)
    requires PlainWord(x)
    ensures Sub(StarToBold, Wrap("*", x)) == Wrap("**", x)
  {
    SubRewritesToken(StarToBold, x);
  }

  /** `UnderscoreToItalic` has no delimiter in the word to match. */
  lemma BoldWordUnderscoreToItalic(x: string)
    requires PlainWord(x)
    ensures Sub(UnderscoreToItalic, Wrap("**", x)) == Wrap("**", x)
  {
    WrapChars("**", x, '_'); SubWithoutDelimiter(UnderscoreToItalic, Wrap("**", x));
  }

  /** `TildeToStrike` has no delimiter in the word to match. */
  lemma BoldWordTildeToStrike(x: string)
    requires PlainWord(x)
    ensures Sub(TildeToStrike, Wrap("**", x)) == Wrap("**", x)
  {
    WrapChars("**", x, '~'); SubWithoutDelimiter(TildeToStrike, Wrap("**", x));
  }

  /** `StarToBold` has no delimiter in the word to match. */
  lemma ItalicWordStarToBold(x: string)
    requires PlainWord(x)
    ensures Sub(StarToBold, Wrap("_", x)) == Wrap("_", x)
  {
    WrapChars("_", x, '*'); SubWithoutDelimiter(StarToBold, Wrap("_", x));
  }

  /** `UnderscoreToItalic` rewrites the word. */
  lemma ItalicWordUnderscoreToItalic(x: string)
    requires PlainWord(x)
    ensures Sub(UnderscoreToItalic, Wrap("_", x)) == Wrap("*", x)
  {
    SubRewritesToken(UnderscoreToItalic, x);
  }

  /** `TildeToStrike` has no delimiter in the word to match. */
  lemma ItalicWordTildeToStrike(x: string)
    requires PlainWord(x)
    ensures Sub(TildeToStrike, Wrap("*", x)) == Wrap("*", x)
  {
    WrapChars("*", x, '~'); SubWithoutDelimiter(TildeToStrike, Wrap("*", x));
  }

  /** `StarToBold` has no delimiter in the word to match. */
  lemma StrikeWordStarToBold(x: string)
    requires PlainWord(x)
    ensures Sub(StarToBold, Wrap("~", x)) == Wrap("~", x)
  {
    WrapChars("~", x, '*'); SubWithoutDelimiter(StarToBold, Wrap("~", x));
  }

  /** `UnderscoreToItalic` has no delimiter in the word to match. */
  lemma StrikeWordUnderscoreToItalic(x: string)
    requires PlainWord(x)
    ensures Sub(UnderscoreToItalic, Wrap("~", x)) == Wrap("~", x)
  {
    WrapChars("~", x, '_'); SubWithoutDelimiter(UnderscoreToItalic, Wrap("~", x));
  }

  /** `TildeToStrike` rewrites the word. */
  lemma StrikeWordTildeToStrike(x: string)
    requires PlainWord(x)
    ensures Sub(TildeToStrike, Wrap("~", x)) == Wrap("~~", x)
  {
    SubRewritesToken(TildeToStrike, x);
  }

  /** A longer delimiter finds no match in a pair of shorter runs of its character. */
  lemma NoRuleAtShorterPair(r: Rule, d: string, x: string, m: nat)
    requires ValidRule(r) && |d| < |r.delim| && |x| > 0
    requires forall j :: 0 <= j < |d| ==> d[j] == r.excl
    requires NoneOf(x, {r.excl})
    requires m < |Wrap(d, x)|
    ensures RuleAt(r, Wrap(d, x), m).None?
  {
    var s, n := Wrap(d, x), |r.delim|;
    if m + n <= |s| {
      if m < |d| {
        assert s[m..m + n][|d| - m] == s[|d|] == x[0];
      } else {
        assert s[m] == x[m - |d|];
        assert s[m..m + n][0] == s[m];
      }
    }
  }

  lemma SubSkipsShorterPair(r: Rule, d: string, x: string)
    requires ValidRule(r) && |d| < |r.delim| && |x| > 0
    requires forall j :: 0 <= j < |d| ==> d[j] == r.excl
    requires NoneOf(x, {r.excl})
    ensures Sub(r, Wrap(d, x)) == Wrap(d, x)
  {
    forall m | 0 <= m < |Wrap(d, x)|
      ensures RuleAt(r, Wrap(d, x), m).None?
    {
      NoRuleAtShorterPair(r, d, x, m);
    }
    SubFromNoMatch(r, Wrap(d, x), 0);
  }

  /** The isolated-star rule does not touch `**b**`: every star has a star beside it. */
  lemma SubIsolatedStarSkipsBold(x: string)
    requires PlainWord(x)
    ensures Sub(LoneStar, Wrap("**", x)) == Wrap("**", x)
  {
    var r, s := LoneStar, Wrap("**", x);
    forall m | 0 <= m < |s|
      ensures RuleAt(r, s, m).None?
    {
      if 2 <= m < 2 + |x| {
        assert s[m] == x[m - 2];
        assert s[m..m + 1][0] == s[m];
      } else if m == 0 || m == |x| + 2 {
        assert s[m + 1] == '*';
      } else {
        assert s[m - 1] == '*';
      }
    }
    SubFromNoMatch(r, s, 0);
  }

  /** The five rewrites turn `**b**` into `*b*`. */
  lemma RewritesBold(x: string)
    requires PlainWord(x)
    ensures ApplyRules(MarkdownToSlackRules, Wrap("**", x)) == Wrap("*", x)
  {
    BoldThroughTripleStar(x); BoldThroughLoneStar(x); BoldThroughDoubleStar(x); BoldThroughDoubleUnderscore(x); BoldThroughDoubleTilde(x);
    ChainFive(MarkdownToSlackRules, Wrap("**", x), Wrap("**", x), Wrap("**", x), Wrap("*", x), Wrap("*", x), Wrap("*", x));
  }

  /** The five rewrites turn an isolated `*i*` into `_i_`. */
  lemma RewritesItalic(x: string)
    requires PlainWord(x)
    ensures ApplyRules(MarkdownToSlackRules, Wrap("*", x)) == Wrap("_", x)
  {
    ItalicThroughTripleStar(x); ItalicThroughLoneStar(x); ItalicThroughDoubleStar(x); ItalicThroughDoubleUnderscore(x); ItalicThroughDoubleTilde(x);
    ChainFive(MarkdownToSlackRules, Wrap("*", x), Wrap("*", x), Wrap("_", x), Wrap("_", x), Wrap("_", x), Wrap("_", x));
  }

  /** The five rewrites turn `~~s~~` into `~s~`. */
  lemma RewritesStrike(x: string)
    requires PlainWord(x)
    ensures ApplyRules(MarkdownToSlackRules, Wrap("~~", x)) == Wrap("~", x)
  {
    StrikeThroughTripleStar(x); StrikeThroughLoneStar(x); StrikeThroughDoubleStar(x); StrikeThroughDoubleUnderscore(x); StrikeThroughDoubleTilde(x);
    ChainFive(MarkdownToSlackRules, Wrap("~~", x), Wrap("~~", x), Wrap("~~", x), Wrap("~~", x), Wrap("~~", x), Wrap("~", x));
  }

  /** `TripleStar` needs a longer run of its character than the word has. */
  lemma BoldThroughTripleStar(x: string)
    requires PlainWord(x)
    ensures Sub(TripleStar, Wrap("**", x)) == Wrap("**", x)
  {
    SubSkipsShorterPair(TripleStar, "**", x);
  }

  /** `LoneStar` finds every star beside another. */
  lemma BoldThroughLoneStar(x: string)
    requires PlainWord(x)
    ensures Sub(LoneStar, Wrap("**", x)) == Wrap("**", x)
  {
    SubIsolatedStarSkipsBold(x);
  }

  /** `DoubleStar` rewrites the word. */
  lemma BoldThroughDoubleStar(x: string)
    requires PlainWord(x)
    ensures Sub(DoubleStar, Wrap("**", x)) == Wrap("*", x)
  {
    SubRewritesToken(DoubleStar, x);
  }

  /** `DoubleUnderscore` has no delimiter in the word to match. */
  lemma BoldThroughDoubleUnderscore(x: string)
    requires PlainWord(x)
    ensures Sub(DoubleUnderscore, Wrap("*", x)) == Wrap("*", x)
  {
    WrapChars("*", x, '_'); SubWithoutDelimiter(DoubleUnderscore, Wrap("*", x));
  }

  /** `DoubleTilde` has no delimiter in the word to match. */
  lemma BoldThroughDoubleTilde(x: string)
    requires PlainWord(x)
    ensures Sub(DoubleTilde, Wrap("*", x)) == Wrap("*", x)
  {
    WrapChars("*", x, '~'); SubWithoutDelimiter(DoubleTilde, Wrap("*", x));
  }

  /** `TripleStar` needs a longer run of its character than the word has. */
  lemma ItalicThroughTripleStar(x: string)
    requires PlainWord(x)
    ensures Sub(TripleStar, Wrap("*", x)) == Wrap("*", x)
  {
    SubSkipsShorterPair(TripleStar, "*", x);
  }

  /** `LoneStar` rewrites the word. */
  lemma ItalicThroughLoneStar(x: string)
    requires PlainWord(x)
    ensures Sub(LoneStar, Wrap("*", x)) == Wrap("_", x)
  {
    SubRewritesToken(LoneStar, x);
  }

  /** `DoubleStar` has no delimiter in the word to match. */
  lemma ItalicThroughDoubleStar(x: string)
    requires PlainWord(x)
    ensures Sub(DoubleStar, Wrap("_", x)) == Wrap("_", x)
  {
    WrapChars("_", x, '*'); SubWithoutDelimiter(DoubleStar, Wrap("_", x));
  }

  /** `DoubleUnderscore` needs a longer run of its character than the word has. */
  lemma ItalicThroughDoubleUnderscore(x: string)
    requires PlainWord(x)
    ensures Sub(DoubleUnderscore, Wrap("_", x)) == Wrap("_", x)
  {
    SubSkipsShorterPair(DoubleUnderscore, "_", x);
  }

  /** `DoubleTilde` has no delimiter in the word to match. */
  lemma ItalicThroughDoubleTilde(x: string)
    requires PlainWord(x)
    ensures Sub(DoubleTilde, Wrap("_", x)) == Wrap("_", x)
  {
    WrapChars("_", x, '~'); SubWithoutDelimiter(DoubleTilde, Wrap("_", x));
  }

  /** `TripleStar` has no delimiter in the word to match. */
  lemma StrikeThroughTripleStar(x: string)
    requires PlainWord(x)
    ensures Sub(TripleStar, Wrap("~~", x)) == Wrap("~~", x)
  {
    WrapChars("~~", x, '*'); SubWithoutDelimiter(TripleStar, Wrap("~~", x));
  }

  /** `LoneStar` has no delimiter in the word to match. */
  lemma StrikeThroughLoneStar(x: string)
    requires PlainWord(x)
    ensures Sub(LoneStar, Wrap("~~", x)) == Wrap("~~", x)
  {
    WrapChars("~~", x, '*'); SubWithoutDelimiter(LoneStar, Wrap("~~", x));
  }

  /** `DoubleStar` has no delimiter in the word to match. */
  lemma StrikeThroughDoubleStar(x: string)
    requires PlainWord(x)
    ensures Sub(DoubleStar, Wrap("~~", x)) == Wrap("~~", x)
  {
    WrapChars("~~", x, '*'); SubWithoutDelimiter(DoubleStar, Wrap("~~", x));
  }

  /** `DoubleUnderscore` has no delimiter in the word to match. */
  lemma StrikeThroughDoubleUnderscore(x: string)
    requires PlainWord(x)
    ensures Sub(DoubleUnderscore, Wrap("~~", x)) == Wrap("~~", x)
  {
    WrapChars("~~", x, '_'); SubWithoutDelimiter(DoubleUnderscore, Wrap("~~", x));
  }

  /** `DoubleTilde` rewrites the word. */
  lemma StrikeThroughDoubleTilde(x: string)
    requires PlainWord(x)
    ensures Sub(DoubleTilde, Wrap("~~", x)) == Wrap("~", x)
  {
    SubRewritesToken(DoubleTilde, x);
  }

  /** Four paddings in a row, none of which changes the text. */
  lemma ChainSpacing(ps: seq<Pattern>, s: string, wide: WidthTable)
    requires |ps| == 4
    requires Spaced(ps[0], s, wide) == s && Spaced(ps[1], s, wide) == s
    requires Spaced(ps[2], s, wide) == s && Spaced(ps[3], s, wide) == s
    ensures ApplySpacing(ps, s, wide) == s
  {
    ApplyFour(ps, s, wide);
  }

  /** The paddings leave a lone formatted word as it is: there is no character
      beside it to be wide. */
  lemma PaddingKeepsBold(x: string, wide: WidthTable)
    requires PlainWord(x)
    ensures ApplySpacing(SpacingPatterns, Wrap("*", x), wide) == Wrap("*", x)
  {
    BoldWordPastBoldItalic(x, wide); BoldWordPastStarPadding(x, wide); BoldWordPastUnderscorePadding(x, wide); BoldWordPastTildePadding(x, wide);
    ChainSpacing(SpacingPatterns, Wrap("*", x), wide);
  }

  lemma PaddingKeepsItalic(x: string, wide: WidthTable)
    requires PlainWord(x)
    ensures ApplySpacing(SpacingPatterns, Wrap("_", x), wide) == Wrap("_", x)
  {
    ItalicWordPastBoldItalic(x, wide); ItalicWordPastStarPadding(x, wide); ItalicWordPastUnderscorePadding(x, wide); ItalicWordPastTildePadding(x, wide);
    ChainSpacing(SpacingPatterns, Wrap("_", x), wide);
  }

  lemma PaddingKeepsStrike(x: string, wide: WidthTable)
    requires PlainWord(x)
    ensures ApplySpacing(SpacingPatterns, Wrap("~", x), wide) == Wrap("~", x)
  {
    StrikeWordPastBoldItalic(x, wide); StrikeWordPastStarPadding(x, wide); StrikeWordPastUnderscorePadding(x, wide); StrikeWordPastTildePadding(x, wide);
    ChainSpacing(SpacingPatterns, Wrap("~", x), wide);
  }

  /** The word has no `_` for this pattern to match. */
  lemma BoldWordPastBoldItalic(x: string, wide: WidthTable)
    requires PlainWord(x)
    ensures Spaced(BoldItalic, Wrap("*", x), wide) == Wrap("*", x)
  {
    WrapChars("*", x, '_'); SpacedWithoutDelimiter(BoldItalic, Wrap("*", x), wide, '_');
  }

  /** The word's own padding finds the whole word and nothing beside it. */
  lemma BoldWordPastStarPadding(x: string, wide: WidthTable)
    requires PlainWord(x)
    ensures Spaced(Delimited('*'), Wrap("*", x), wide) == Wrap("*", x)
  {
    SpacedKeepsWholeToken('*', x, wide);
  }

  /** The word has no `_` for this pattern to match. */
  lemma BoldWordPastUnderscorePadding(x: string, wide: WidthTable)
    requires PlainWord(x)
    ensures Spaced(Delimited('_'), Wrap("*", x), wide) == Wrap("*", x)
  {
    WrapChars("*", x, '_'); SpacedWithoutDelimiter(Delimited('_'), Wrap("*", x), wide, '_');
  }

  /** The word has no `~` for this pattern to match. */
  lemma BoldWordPastTildePadding(x: string, wide: WidthTable)
    requires PlainWord(x)
    ensures Spaced(Delimited('~'), Wrap("*", x), wide) == Wrap("*", x)
  {
    WrapChars("*", x, '~'); SpacedWithoutDelimiter(Delimited('~'), Wrap("*", x), wide, '~');
  }

  /** The word has no `*` for this pattern to match. */
  lemma ItalicWordPastBoldItalic(x: string, wide: WidthTable)
    requires PlainWord(x)
    ensures Spaced(BoldItalic, Wrap("_", x), wide) == Wrap("_", x)
  {
    WrapChars("_", x, '*'); SpacedWithoutDelimiter(BoldItalic, Wrap("_", x), wide, '*');
  }

  /** The word has no `*` for this pattern to match. */
  lemma ItalicWordPastStarPadding(x: string, wide: WidthTable)
    requires PlainWord(x)
    ensures Spaced(Delimited('*'), Wrap("_", x), wide) == Wrap("_", x)
  {
    WrapChars("_", x, '*'); SpacedWithoutDelimiter(Delimited('*'), Wrap("_", x), wide, '*');
  }

  /** The word's own padding finds the whole word and nothing beside it. */
  lemma ItalicWordPastUnderscorePadding(x: string, wide: WidthTable)
    requires PlainWord(x)
    ensures Spaced(Delimited('_'), Wrap("_", x), wide) == Wrap("_", x)
  {
    SpacedKeepsWholeToken('_', x, wide);
  }

  /** The word has no `~` for this pattern to match. */
  lemma ItalicWordPastTildePadding(x: string, wide: WidthTable)
    requires PlainWord(x)
    ensures Spaced(Delimited('~'), Wrap("_", x), wide) == Wrap("_", x)
  {
    WrapChars("_", x, '~'); SpacedWithoutDelimiter(Delimited('~'), Wrap("_", x), wide, '~');
  }

  /** The word has no `_` for this pattern to match. */
  lemma StrikeWordPastBoldItalic(x: string, wide: WidthTable)
    requires PlainWord(x)
    ensures Spaced(BoldItalic, Wrap("~", x), wide) == Wrap("~", x)
  {
    WrapChars("~", x, '_'); SpacedWithoutDelimiter(BoldItalic, Wrap("~", x), wide, '_');
  }

  /** The word has no `*` for this pattern to match. */
  lemma StrikeWordPastStarPadding(x: string, wide: WidthTable)
    requires PlainWord(x)
    ensures Spaced(Delimited('*'), Wrap("~", x), wide) == Wrap("~", x)
  {
    WrapChars("~", x, '*'); SpacedWithoutDelimiter(Delimited('*'), Wrap("~", x), wide, '*');
  }

  /** The word has no `_` for this pattern to match. */
  lemma StrikeWordPastUnderscorePadding(x: string, wide: WidthTable)
    requires PlainWord(x)
    ensures Spaced(Delimited('_'), Wrap("~", x), wide) == Wrap("~", x)
  {
    WrapChars("~", x, '_'); SpacedWithoutDelimiter(Delimited('_'), Wrap("~", x), wide, '_');
  }

  /** The word's own padding finds the whole word and nothing beside it. */
  lemma StrikeWordPastTildePadding(x: string, wide: WidthTable)
    requires PlainWord(x)
    ensures Spaced(Delimited('~'), Wrap("~", x), wide) == Wrap("~", x)
  {
    SpacedKeepsWholeToken('~', x, wide);
  }

  /** `markdown_to_slack` turns `**b**` into `*b*`. */
  lemma MarkdownToSlackBold(x: string, wide: WidthTable)
    requires PlainWord(x)
    ensures MarkdownToSlackOf(Wrap("**", x), wide) == Wrap("*", x)
  {
    RewritesBold(x);
    PaddingKeepsBold(x, wide);
    WrapChars("**", x, '`');
    MarkdownToSlackOfText(Wrap("**", x), wide);
  }

  /** `markdown_to_slack` turns an isolated `*i*` into `_i_`. */
  lemma MarkdownToSlackItalic(x: string, wide: WidthTable)
    requires PlainWord(x)
    ensures MarkdownToSlackOf(Wrap("*", x), wide) == Wrap("_", x)
  {
    RewritesItalic(x);
    PaddingKeepsItalic(x, wide);
    WrapChars("*", x, '`');
    MarkdownToSlackOfText(Wrap("*", x), wide);
  }

  /** `markdown_to_slack` turns `~~s~~` into `~s~`. */
  lemma MarkdownToSlackStrike(x: string, wide: WidthTable)
    requires PlainWord(x)
    ensures MarkdownToSlackOf(Wrap("~~", x), wide) == Wrap("~", x)
  {
    RewritesStrike(x);
    PaddingKeepsStrike(x, wide);
    WrapChars("~~", x, '`');
    MarkdownToSlackOfText(Wrap("~~", x), wide);
  }

  /** Converting a formatted word to Markdown and back gives it back, and so
      does converting the Markdown form to Slack and back. */
  lemma RoundTrips(x: string, wide: WidthTable)
    requires PlainWord(x)
    ensures MarkdownToSlackOf(SlackToMarkdownOf(Wrap("*", x)), wide) == Wrap("*", x)
    ensures MarkdownToSlackOf(SlackToMarkdownOf(Wrap("_", x)), wide) == Wrap("_", x)
    ensures MarkdownToSlackOf(SlackToMarkdownOf(Wrap("~", x)), wide) == Wrap("~", x)
    ensures SlackToMarkdownOf(MarkdownToSlackOf(Wrap("**", x), wide)) == Wrap("**", x)
    ensures SlackToMarkdownOf(MarkdownToSlackOf(Wrap("*", x), wide)) == Wrap("*", x)
    ensures SlackToMarkdownOf(MarkdownToSlackOf(Wrap("~~", x), wide)) == Wrap("~~", x)
  {
    SlackToMarkdownWords(x);
    MarkdownToSlackBold(x, wide);
    MarkdownToSlackItalic(x, wide);
    MarkdownToSlackStrike(x, wide);
  }
}
