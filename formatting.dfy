/** Text normalisation around the model call: `format_openai_message_content`
    and `format_assistant_reply` of app/openai_ops.py, and the building blocks
    of their legacy counterparts in internals.py. */
module ReplyFormatting {
  import opened Wrappers
  import opened Chars
  import opened MarkdownConversion

  /*** `str.replace` and Slack's HTML entities ***/

  /** `s.replace(pat, rep)`: every occurrence, leftmost first, not overlapping. */
  function ReplaceAll(s: string, pat: string, rep: string): (r: string)
    requires |pat| > 0
    ensures NoneOf(s, {pat[0]}) ==> r == s
    decreases |s|
  {
    if |pat| <= |s| && s[..|pat|] == pat then rep + ReplaceAll(s[|pat|..], pat, rep)
    else if s == [] then ""
    else [s[0]] + ReplaceAll(s[1..], pat, rep)
  }

  /** Text free of the pattern's first character is copied through untouched. */
  lemma {:induction false} ReplaceAllSkips(x: string, rest: string, pat: string, rep: string)
    requires |pat| > 0 && NoneOf(x, {pat[0]})
    ensures ReplaceAll(x + rest, pat, rep) == x + ReplaceAll(rest, pat, rep)
    decreases |x|
  {
    if x == [] {
      assert x + rest == rest;
    } else {
      NoneOfTail(x, 1, {pat[0]});
      ReplaceAllSkips(x[1..], rest, pat, rep);
      ReplaceAllCopiesHead(x, rest, pat, rep);
      ConsAppend(x, ReplaceAll(rest, pat, rep));
    }
  }

  /** A first character that cannot start the pattern, or a second one that
      cannot continue it, is copied. */
  lemma ReplaceAllCopiesHead(x: string, rest: string, pat: string, rep: string)
    requires |pat| > 0 && x != []
    requires x[0] != pat[0] || (|x| >= 2 && |pat| >= 2 && x[1] != pat[1])
    ensures ReplaceAll(x + rest, pat, rep) == [x[0]] + ReplaceAll(x[1..] + rest, pat, rep)
  {
    HeadOfAppend(x, rest);
    ReplaceAllAtMismatch(x + rest, pat, rep);
  }

  lemma HeadOfAppend(x: string, rest: string)
    requires x != []
    ensures (x + rest)[0] == x[0] && (x + rest)[1..] == x[1..] + rest
    ensures |x| >= 2 ==> (x + rest)[1] == x[1]
  {
  }

  lemma ConsAppend(x: string, t: string)
    requires x != []
    ensures [x[0]] + (x[1..] + t) == x + t
  {
    assert [x[0]] + x[1..] == x;
  }

  lemma ReplaceAllAtMatch(pat: string, rest: string, rep: string)
    requires |pat| > 0
    ensures ReplaceAll(pat + rest, pat, rep) == rep + ReplaceAll(rest, pat, rep)
  {
    var s := pat + rest;
    assert s[..|pat|] == pat && s[|pat|..] == rest;
  }

  lemma ReplaceAllAtMismatch(s: string, pat: string, rep: string)
    requires |pat| > 0 && |s| > 0
    requires s[0] != pat[0] || (|s| >= 2 && |pat| >= 2 && s[1] != pat[1])
    ensures ReplaceAll(s, pat, rep) == [s[0]] + ReplaceAll(s[1..], pat, rep)
  {
    if |pat| <= |s| {
      if s[0] != pat[0] {
        assert s[..|pat|][0] == s[0];
      } else {
        assert s[..|pat|][1] == s[1];
      }
    }
  }

  /** One piece in front of `rest`: it is replaced when it is the pattern, and
      copied otherwise, provided no occurrence can start inside it. */
  lemma ReplaceAllPiece(piece: string, rest: string, pat: string, rep: string)
    requires |pat| > 0 && |piece| > 0 && NoneOf(piece[1..], {pat[0]})
    requires piece == pat || piece[0] != pat[0] || (|piece| >= 2 && |pat| >= 2 && piece[1] != pat[1])
    ensures ReplaceAll(piece + rest, pat, rep) == (if piece == pat then rep else piece) + ReplaceAll(rest, pat, rep)
  {
    if piece == pat {
      ReplaceAllAtMatch(pat, rest, rep);
    } else {
      ReplaceAllCopiesHead(piece, rest, pat, rep);
      ReplaceAllSkips(piece[1..], rest, pat, rep);
      ConsAppend(piece, ReplaceAll(rest, pat, rep));
    }
  }

  /** The three entities, replaced `&lt;` first, then `&gt;`, then `&amp;`. */
  function Unescape(s: string): (r: string)
    ensures NoneOf(s, {'&'}) ==> r == s
  {
    ReplaceAll(ReplaceAll(ReplaceAll(s, "&lt;", "<"), "&gt;", ">"), "&amp;", "&")
  }

  /** Slack's escaping of a character: `&`, `<` and `>` become entities. */
  function EscapeChar(c: char, lt: bool, gt: bool): string {
    if c == '&' then "&amp;"
    else if c == '<' && lt then "&lt;"
    else if c == '>' && gt then "&gt;"
    else [c]
  }

  /** Text with `&` escaped, and `<` and `>` escaped when the flags say so. */
  function EscapeSome(s: string, lt: bool, gt: bool): string {
    if s == [] then "" else EscapeChar(s[0], lt, gt) + EscapeSome(s[1..], lt, gt)
  }

  /** The text as Slack sends it: every `&`, `<` and `>` escaped. */
  function Escape(s: string): string {
    EscapeSome(s, true, true)
  }

  lemma {:induction false} UnescapeLt(s: string, gt: bool)
    ensures ReplaceAll(EscapeSome(s, true, gt), "&lt;", "<") == EscapeSome(s, false, gt)
    decreases |s|
  {
    if s != [] {
      UnescapeLt(s[1..], gt);
      var piece := EscapeChar(s[0], true, gt);
      ReplaceAllPiece(piece, EscapeSome(s[1..], true, gt), "&lt;", "<");
    }
  }

  lemma {:induction false} UnescapeGt(s: string)
    ensures ReplaceAll(EscapeSome(s, false, true), "&gt;", ">") == EscapeSome(s, false, false)
    decreases |s|
  {
    if s != [] {
      UnescapeGt(s[1..]);
      var piece := EscapeChar(s[0], false, true);
      ReplaceAllPiece(piece, EscapeSome(s[1..], false, true), "&gt;", ">");
    }
  }

  lemma {:induction false} UnescapeAmp(s: string)
    ensures ReplaceAll(EscapeSome(s, false, false), "&amp;", "&") == s
    decreases |s|
  {
    if s != [] {
      UnescapeAmp(s[1..]);
      var piece := EscapeChar(s[0], false, false);
      ReplaceAllPiece(piece, EscapeSome(s[1..], false, false), "&amp;", "&");
      assert [s[0]] + s[1..] == s;
    }
  }

  /** Unescaping undoes Slack's escaping exactly: replacing `&amp;` last means
      an escaped entity such as `&amp;lt;` comes back as `&lt;`, not as `<`. */
  lemma UnescapeEscape(s: string)
    ensures Unescape(Escape(s)) == s
  {
    UnescapeLt(s, true);
    UnescapeGt(s);
    UnescapeAmp(s);
  }

  /** `format_openai_message_content`: `None` stays `None`; otherwise the
      entities are unescaped and, when asked, mrkdwn becomes Markdown. */
  function FormatOpenAIMessageContent(content: Option<string>, translateMarkdown: bool): (r: Option<string>)
    ensures r.None? <==> content.None?
  {
    match content
    case None => None
    case Some(text) =>
      var unescaped := Unescape(text);
      Some(if translateMarkdown then SlackToMarkdownOf(unescaped) else unescaped)
  }

  /** A message as Slack delivers it comes out as the user wrote it, and with
      translation on, as its Markdown conversion. */
  lemma FormatOpenAIMessageContentOfEscaped(s: string)
    ensures FormatOpenAIMessageContent(Some(Escape(s)), false) == Some(s)
    ensures FormatOpenAIMessageContent(Some(Escape(s)), true) == Some(SlackToMarkdownOf(s))
  {
    UnescapeEscape(s);
  }

  /*** The anchored rewrites of `format_assistant_reply` ***/

  /** `s` newlines. */
  function Newlines(n: nat): (s: string)
    ensures |s| == n
  {
    if n == 0 then "" else "\n" + Newlines(n - 1)
  }

  lemma NewlineBefore(s: string, n: nat, r: string)
    requires s != [] && s[0] == '\n' && s[1..] == Newlines(n) + r
    ensures s == Newlines(n + 1) + r
  {
    assert s == "\n" + s[1..];
  }

  /** `re.sub("^\n+", "", s)`: what is removed is all newlines, and what is
      left does not start with one. */
  function StripLeadingNewlines(s: string): (r: string)
    ensures |r| <= |s| && s == Newlines(|s| - |r|) + r
    ensures r == [] || r[0] != '\n'
  {
    if s != [] && s[0] == '\n' then
      var r := StripLeadingNewlines(s[1..]);
      NewlineBefore(s, |s| - 1 - |r|, r);
      r
    else
      assert s == "" + s;
      s
  }

  lemma {:induction false} StripNewlinesOf(n: nat, s: string)
    requires s == [] || s[0] != '\n'
    ensures StripLeadingNewlines(Newlines(n) + s) == s
    decreases n
  {
    if n > 0 {
      assert Newlines(n) + s == "\n" + (Newlines(n - 1) + s);
      StripNewlinesOf(n - 1, s);
    }
  }

  /** `\s?` at `j`: one whitespace character if there is one. */
  function OptionalSpace(s: string, j: nat): (r: nat)
    requires j <= |s|
  {
    if j < |s| && IsSpace(s[j]) then j + 1 else j
  }

  /** Where `\s?:\s?` ends when it starts at `j`, if it matches there. */
  function ColonFrom(s: string, j: nat): (r: Option<nat>)
    requires j <= |s|
    ensures r.Some? ==> j < r.value <= |s|
  {
    if j + 1 < |s| && IsSpace(s[j]) && s[j + 1] == ':' then Some(OptionalSpace(s, j + 2))
    else if j < |s| && s[j] == ':' then Some(OptionalSpace(s, j + 1))
    else None
  }

  /** Where `.*?>\s?:\s?` ends when its lazy part starts at `k`: the nearest
      `>` on the line that is followed by the colon. */
  function MentionEnd(s: string, k: nat): (r: Option<nat>)
    requires k <= |s|
    ensures r.Some? ==> k < r.value <= |s|
    decreases |s| - k
  {
    if k == |s| || s[k] == '\n' then None
    else if s[k] == '>' && ColonFrom(s, k + 1).Some? then ColonFrom(s, k + 1)
    else MentionEnd(s, k + 1)
  }

  /** `re.sub("^<@U.*?>\s?:\s?", "", s)`: a leading mention is dropped. */
  function StripMentionPrefix(s: string): (r: string)
    ensures |r| <= |s| && r == s[|s| - |r|..]
    ensures !(|s| >= 3 && s[..3] == "<@U") ==> r == s
  {
    if |s| >= 3 && s[..3] == "<@U" then
      match MentionEnd(s, 3)
      case Some(e) => s[e..]
      case None => s
    else s
  }

  lemma {:induction false} MentionEndSkips(s: string, k: nat, e: nat)
    requires k <= e <= |s|
    requires forall m :: k <= m < e ==> s[m] != '>' && s[m] != '\n'
    ensures MentionEnd(s, k) == MentionEnd(s, e)
    decreases e - k
  {
    if k < e {
      MentionEndSkips(s, k + 1, e);
    }
  }

  /** `\s?:\s?` matches the same way after any prefix. */
  lemma ColonFromShift(pre: string, tail: string)
    ensures ColonFrom(pre + tail, |pre|)
         == match ColonFrom(tail, 0) case Some(e) => Some(|pre| + e) case None => None
  {
    var s := pre + tail;
    var n := |pre|;
    assert forall t :: 0 <= t < |tail| ==> s[n + t] == tail[t];
  }

  /** A mention `<@U...>` whose `>` is followed by the colon is removed up to
      where `\s?:\s?` ends. */
  lemma StripMentionOf(id: string, tail: string, e: nat)
    requires NoneOf(id, {'>', '\n'})
    requires ColonFrom(tail, 0) == Some(e)
    ensures StripMentionPrefix("<@U" + id + ">" + tail) == tail[e..]
  {
    var pre := "<@U" + id + ">";
    var s := pre + tail;
    var k := 3 + |id|;
    assert s[..3] == "<@U";
    forall m | 3 <= m < k
      ensures s[m] != '>' && s[m] != '\n'
    {
      assert s[m] == id[m - 3];
    }
    MentionEndSkips(s, 3, k);
    assert s[k] == '>';
    ColonFromShift(pre, tail);
    assert s[k + 1 + e..] == tail[e..];
  }

  /** A colon with an optional space on each side. */
  function MentionColon(before: bool, after: bool): string {
    SpaceIf(before) + ":" + SpaceIf(after)
  }

  /** A mention `<@U...>` followed by a colon, with at most one space on each
      side of the colon, is removed together with those spaces. */
  lemma MentionPrefixRemoved(id: string, before: bool, after: bool, rest: string)
    requires NoneOf(id, {'>', '\n'})
    requires !after ==> rest == [] || !IsSpace(rest[0])
    ensures StripMentionPrefix("<@U" + id + ">" + MentionColon(before, after) + rest) == rest
  {
    var colon := MentionColon(before, after);
    var tail := colon + rest;
    var e := |colon|;
    assert tail[e..] == rest;
    if before {
      assert tail[0] == ' ' && tail[1] == ':';
    } else {
      assert tail[0] == ':';
    }
    if !after && e < |tail| {
      assert tail[e] == rest[0];
    }
    assert ColonFrom(tail, 0) == Some(e);
    StripMentionOf(id, tail, e);
    AppendAssoc("<@U" + id + ">", colon, rest);
  }

  /*** Code-fence language tags ***/

  /** A pattern ```` ```TAG ```` whose tag has, at each position, an upper and
      a lower alternative (`[Rr]ust` is `("Rust", "rust")`). `spaces` says
      whether `\s*` may stand between the backticks and the tag, `newline`
      whether the pattern ends in `\n`. Every match becomes ```` ``` ```` and a newline. */
  datatype Fence = Fence(upper: string, lower: string, spaces: bool, newline: bool)

  /** Every position of a tag has its two alternatives. The listed tags are
      made of letters and `+`, so the greedy `\s*` before them can only take
      the whole run of whitespace. */
  predicate ValidFence(f: Fence) {
    |f.upper| == |f.lower| > 0
  }

  /** The end of the run of whitespace at `j`. */
  function SkipSpaces(s: string, j: nat): (r: nat)
    requires j <= |s|
    ensures j <= r <= |s| && (r == |s| || !IsSpace(s[r]))
    ensures forall m :: j <= m < r ==> IsSpace(s[m])
    decreases |s| - j
  {
    if j < |s| && IsSpace(s[j]) then SkipSpaces(s, j + 1) else j
  }

  /** The tag matches `s` at `j`. */
  predicate TagAt(f: Fence, s: string, j: nat) {
    && |f.lower| == |f.upper|
    && j + |f.upper| <= |s|
    && forall k :: 0 <= k < |f.upper| ==> s[j + k] == f.upper[k] || s[j + k] == f.lower[k]
  }

  /** The tag accepts the word `w`. */
  predicate Accepts(f: Fence, w: string) {
    |w| == |f.upper| && TagAt(f, w, 0)
  }

  /** Where a match of the pattern at `i` ends. */
  function FenceAt(f: Fence, s: string, i: nat): (e: Option<nat>)
    requires i <= |s|
    ensures e.Some? ==> i + 3 <= e.value <= |s| && s[i..i + 3] == "```"
  {
    if !(i + 3 <= |s| && s[i..i + 3] == "```") then None
    else
      var j := if f.spaces then SkipSpaces(s, i + 3) else i + 3;
      var n := j + |f.upper|;
      if !TagAt(f, s, j) then None
      else if !f.newline then Some(n)
      else if n < |s| && s[n] == '\n' then Some(n + 1)
      else None
  }

  /** `re.sub(pattern, "```\n", s[i..])`. */
  function FenceSubFrom(f: Fence, s: string, i: nat): string
    requires i <= |s|
    decreases |s| - i
  {
    if i == |s| then ""
    else match FenceAt(f, s, i)
      case Some(e) => "```\n" + FenceSubFrom(f, s, e)
      case None => [s[i]] + FenceSubFrom(f, s, i + 1)
  }

  function FenceSub(f: Fence, s: string): string {
    FenceSubFrom(f, s, 0)
  }

  /** The patterns applied in order, each to the previous one's output. */
  function ApplyFences(fs: seq<Fence>, s: string): string {
    if fs == [] then s else FenceSub(fs[|fs| - 1], ApplyFences(fs[..|fs| - 1], s))
  }

  /** ```` ```\s*TAG\n ```` */
  function Tag(upper: string, lower: string): Fence {
    Fence(upper, lower, true, true)
  }

  /** Tag pattern `k` of `format_assistant_reply`, in the order of its list.
      The source writes `[Oo]objective[Cc]` and `[Ty]ype[Ss]cript`, and they
      are kept as written. */
  function ReplyFence(k: int): Fence {
    match k
    case 0 => Tag("Rust", "rust")
    case 1 => Tag("Ruby", "ruby")
    case 2 => Tag("Scala", "scala")
    case 3 => Tag("Kotlin", "kotlin")
    case 4 => Tag("Java", "java")
    case 5 => Tag("Go", "go")
    case 6 => Tag("Swift", "swift")
    case 7 => Tag("OobjectiveC", "oobjectivec")
    case 8 => Tag("C", "c")
    case 9 => Tag("C++", "c++")
    case 10 => Tag("CPP", "cpp")
    case 11 => Tag("Csharp", "csharp")
    case 12 => Tag("MATLAB", "matlab")
    case 13 => Tag("JSON", "json")
    case 14 => Tag("LaTeX", "latex")
    case 15 => Tag("LUA", "lua")
    case 16 => Tag("CMAKE", "cmake")
    case 17 => Tag("bash", "bash")
    case 18 => Tag("zsh", "zsh")
    case 19 => Tag("sh", "sh")
    case 20 => Tag("SQL", "sql")
    case 21 => Tag("PHP", "php")
    case 22 => Tag("PERL", "perl")
    case 23 => Tag("JavaScript", "javascript")
    case 24 => Tag("TypeScript", "yypescript")
    case _ => Tag("Python", "python")  // 25
  }

  const ReplyFences: seq<Fence> :=
    [ ReplyFence(0), ReplyFence(1), ReplyFence(2), ReplyFence(3), ReplyFence(4), ReplyFence(5),
      ReplyFence(6), ReplyFence(7), ReplyFence(8), ReplyFence(9), ReplyFence(10), ReplyFence(11),
      ReplyFence(12), ReplyFence(13), ReplyFence(14), ReplyFence(15), ReplyFence(16), ReplyFence(17),
      ReplyFence(18), ReplyFence(19), ReplyFence(20), ReplyFence(21), ReplyFence(22), ReplyFence(23),
      ReplyFence(24), ReplyFence(25) ]

  lemma ReplyFencesAt(k: int)
    requires 0 <= k < 26
    ensures ReplyFences[k] == ReplyFence(k)
  {
  }

  /** `format_assistant_reply(content, translate_markdown)`: leading newlines,
      then a leading mention, then the tag of every listed code fence are
      removed; the reply is converted to mrkdwn when asked. */
  function FormatAssistantReply(content: string, translateMarkdown: bool, wide: WidthTable): string {
    var cleaned := ApplyFences(ReplyFences, StripMentionPrefix(StripLeadingNewlines(content)));
    if translateMarkdown then MarkdownToSlackOf(cleaned, wide) else cleaned
  }

  /*** What the fence rewrites do ***/

  lemma {:induction false} FenceSubFromNoMatch(f: Fence, s: string, i: nat)
    requires i <= |s|
    requires forall m :: i <= m < |s| ==> FenceAt(f, s, m).None?
    ensures FenceSubFrom(f, s, i) == s[i..]
    decreases |s| - i
  {
    if i < |s| {
      FenceSubFromNoMatch(f, s, i + 1);
      assert s[i..] == [s[i]] + s[i + 1..];
    }
  }

  /** No pattern matches text without a backtick. */
  lemma FenceSubWithoutBacktick(f: Fence, s: string)
    requires NoneOf(s, {'`'})
    ensures FenceSub(f, s) == s
  {
    forall m | 0 <= m < |s|
      ensures FenceAt(f, s, m).None?
    {
      if m + 3 <= |s| {
        assert s[m..m + 3][0] == s[m];
      }
    }
    FenceSubFromNoMatch(f, s, 0);
  }

  lemma {:induction false} ApplyFencesWithoutBacktick(fs: seq<Fence>, s: string)
    requires NoneOf(s, {'`'})
    ensures ApplyFences(fs, s) == s
    decreases |fs|
  {
    if fs != [] {
      ApplyFencesWithoutBacktick(fs[..|fs| - 1], s);
      FenceSubWithoutBacktick(fs[|fs| - 1], s);
    }
  }

  /** A reply without code fences loses only its leading newlines and mention
      (before any conversion to mrkdwn). */
  lemma FormatAssistantReplyWithoutFences(content: string, translateMarkdown: bool, wide: WidthTable)
    requires NoneOf(content, {'`'})
    ensures var cleaned := StripMentionPrefix(StripLeadingNewlines(content));
      FormatAssistantReply(content, translateMarkdown, wide)
      == if translateMarkdown then MarkdownToSlackOf(cleaned, wide) else cleaned
  {
    var stripped := StripLeadingNewlines(content);
    var cleaned := StripMentionPrefix(stripped);
    assert stripped == content[|content| - |stripped|..];
    NoneOfTail(content, |content| - |stripped|, {'`'});
    NoneOfTail(stripped, |stripped| - |cleaned|, {'`'});
    ApplyFencesWithoutBacktick(ReplyFences, cleaned);
  }

  lemma NoneOfTail(s: string, n: nat, cs: set<char>)
    requires n <= |s| && NoneOf(s, cs)
    ensures NoneOf(s[n..], cs)
  {
    assert forall m :: 0 <= m < |s| - n ==> s[n..][m] == s[n + m];
  }

  /** A tag word as a code block carries it: it starts with a non-space and
      holds no backtick or newline. */
  predicate TagWord(w: string) {
    |w| > 0 && !IsSpace(w[0]) && NoneOf(w, {'`', '\n'})
  }

  /** A code block: an opening fence, a tag, a newline, code without
      backticks and a closing fence. */
  function CodeBlock(spaces: string, w: string, code: string): string {
    "```" + spaces + w + "\n" + code + "```"
  }

  /** In a lone code block only the opening fence can match. */
  lemma LoneBlockMatches(f: Fence, s: string, m: nat)
    requires ValidFence(f)
    requires |s| > 6 && s[..3] == "```" && s[|s| - 3..] == "```" && NoneOf(s[3..|s| - 3], {'`'})
    requires 0 < m < |s|
    ensures FenceAt(f, s, m).None?
  {
    if m + 3 <= |s| {
      if m < |s| - 3 {
        var c := if m < 3 then 3 else m;
        assert s[m..m + 3][c - m] == s[c] == s[3..|s| - 3][c - 3];
      } else {
        assert m == |s| - 3;
        var j := if f.spaces then SkipSpaces(s, m + 3) else m + 3;
        assert j == |s|;
      }
    }
  }

  lemma LoneBlockSub(f: Fence, s: string)
    requires ValidFence(f)
    requires |s| > 6 && s[..3] == "```" && s[|s| - 3..] == "```" && NoneOf(s[3..|s| - 3], {'`'})
    ensures FenceSub(f, s) == match FenceAt(f, s, 0)
      case Some(e) => "```\n" + s[e..]
      case None => s
  {
    LoneBlockOnlyAtStart(f, s);
    FenceSubStep(f, s, 0);
    match FenceAt(f, s, 0)
    case Some(e) =>
      FenceSubFromNoMatch(f, s, e);
    case None =>
      FenceSubFromNoMatch(f, s, 1);
      assert s == [s[0]] + s[1..];
  }

  lemma LoneBlockOnlyAtStart(f: Fence, s: string)
    requires ValidFence(f)
    requires |s| > 6 && s[..3] == "```" && s[|s| - 3..] == "```" && NoneOf(s[3..|s| - 3], {'`'})
    ensures forall m :: 0 < m < |s| ==> FenceAt(f, s, m).None?
  {
    forall m | 0 < m < |s|
      ensures FenceAt(f, s, m).None?
    {
      LoneBlockMatches(f, s, m);
    }
  }

  /** One step of the scan at `i`. */
  lemma FenceSubStep(f: Fence, s: string, i: nat)
    requires i < |s|
    ensures FenceAt(f, s, i).Some? ==> FenceSubFrom(f, s, i) == "```\n" + FenceSubFrom(f, s, FenceAt(f, s, i).value)
    ensures FenceAt(f, s, i).None? ==> FenceSubFrom(f, s, i) == [s[i]] + FenceSubFrom(f, s, i + 1)
  {
  }

  /** Where the parts of a code block sit. */
  lemma CodeBlockLayout(spaces: string, w: string, code: string)
    ensures var s, j := CodeBlock(spaces, w, code), 3 + |spaces|;
      && |s| == j + |w| + 1 + |code| + 3
      && s[..3] == "```" && s[|s| - 3..] == "```"
      && (forall m :: 3 <= m < j ==> s[m] == spaces[m - 3])
      && (forall m :: 0 <= m < |w| ==> s[j + m] == w[m])
      && s[j + |w|] == '\n'
      && s[j + |w| + 1..] == code + "```"
  {
  }

  /** A code block whose tag and code hold no backtick has none between its fences. */
  lemma CodeBlockInside(spaces: string, w: string, code: string)
    requires NoneOf(w, {'`'}) && NoneOf(code, {'`'}) && (forall k :: 0 <= k < |spaces| ==> IsSpace(spaces[k]))
    ensures var s := CodeBlock(spaces, w, code); NoneOf(s[3..|s| - 3], {'`'})
  {
    var s := CodeBlock(spaces, w, code);
    var j := 3 + |spaces|;
    CodeBlockLayout(spaces, w, code);
    forall m | 3 <= m < |s| - 3
      ensures s[m] != '`'
    {
      if m < j {
        assert IsSpace(spaces[m - 3]);
      } else if m < j + |w| {
        assert s[m] == w[m - j];
      } else if m > j + |w| {
        assert s[j + |w| + 1..][m - j - |w| - 1] == code[m - j - |w| - 1];
      }
    }
  }

  lemma FenceAtOpening(f: Fence, s: string, j: nat)
    requires |s| >= 3 && s[0..3] == "```" && f.newline
    requires if f.spaces then j <= |s| && SkipSpaces(s, 3) == j else j == 3
    requires TagAt(f, s, j) && j + |f.upper| < |s| && s[j + |f.upper|] == '\n'
    ensures FenceAt(f, s, 0) == Some(j + |f.upper| + 1)
  {
  }

  lemma CodeBlockOpening(f: Fence, spaces: string, w: string, code: string)
    requires ValidFence(f) && Accepts(f, w) && TagWord(w)
    requires forall k :: 0 <= k < |spaces| ==> IsSpace(spaces[k])
    requires f.newline && (f.spaces || spaces == [])
    ensures FenceAt(f, CodeBlock(spaces, w, code), 0) == Some(3 + |spaces| + |w| + 1)
  {
    var s := CodeBlock(spaces, w, code);
    var j := 3 + |spaces|;
    assert s[0..3] == "```" && j + |w| < |s| && s[j + |w|] == '\n' by {
      CodeBlockLayout(spaces, w, code);
    }
    assert TagAt(f, s, j);
    if f.spaces {
      assert SkipSpaces(s, 3) == j by {
        CodeBlockLayout(spaces, w, code);
        assert s[j] == w[0];
        SkipSpacesOver(s, 3, j);
      }
    }
    FenceAtOpening(f, s, j);
  }

  /** A pattern whose tag accepts `w` turns ```` ```w ```` and its newline into
      a bare fence, with any whitespace before the tag when the pattern allows it. */
  lemma FenceRewritesTag(f: Fence, spaces: string, w: string, code: string)
    requires ValidFence(f) && Accepts(f, w) && TagWord(w)
    requires NoneOf(code, {'`'}) && (forall k :: 0 <= k < |spaces| ==> IsSpace(spaces[k]))
    requires f.newline && (f.spaces || spaces == [])
    ensures FenceSub(f, CodeBlock(spaces, w, code)) == "```\n" + code + "```"
  {
    var s := CodeBlock(spaces, w, code);
    CodeBlockLayout(spaces, w, code);
    CodeBlockInside(spaces, w, code);
    CodeBlockOpening(f, spaces, w, code);
    LoneBlockSub(f, s);
    AppendAssoc("```\n", code, "```");
  }

  lemma {:induction false} SkipSpacesOver(s: string, j: nat, e: nat)
    requires j <= e < |s| && !IsSpace(s[e])
    requires forall m :: j <= m < e ==> IsSpace(s[m])
    ensures SkipSpaces(s, j) == e
    decreases e - j
  {
    if j < e {
      SkipSpacesOver(s, j + 1, e);
    }
  }

  /** A pattern whose tag differs from `w` at position `k` leaves the code block alone. */
  lemma BlockSkipsFence(f: Fence, w: string, code: string, k: nat)
    requires ValidFence(f) && TagWord(w) && NoneOf(code, {'`'})
    requires k < |w| && k < |f.upper| && w[k] != f.upper[k] && w[k] != f.lower[k]
    ensures FenceSub(f, CodeBlock("", w, code)) == CodeBlock("", w, code)
  {
    CodeBlockIsLone(w, code);
    TagMismatchNoFence(f, w, code, k);
    LoneBlockSub(f, CodeBlock("", w, code));
  }

  lemma TagMismatchNoFence(f: Fence, w: string, code: string, k: nat)
    requires ValidFence(f) && TagWord(w)
    requires k < |w| && k < |f.upper| && w[k] != f.upper[k] && w[k] != f.lower[k]
    ensures FenceAt(f, CodeBlock("", w, code), 0).None?
  {
    CodeBlockAt(w, code, 0);
    CodeBlockAt(w, code, k);
    MismatchNoFence(f, CodeBlock("", w, code), k);
  }

  /** A character at `3 + k` that neither alternative of the tag allows rules
      out a match at the start, when no whitespace follows the backticks. */
  lemma MismatchNoFence(f: Fence, s: string, k: nat)
    requires ValidFence(f) && 3 + k < |s| && !IsSpace(s[3])
    requires k < |f.upper| && s[3 + k] != f.upper[k] && s[3 + k] != f.lower[k]
    ensures FenceAt(f, s, 0).None?
  {
    SkipSpacesOver(s, 3, 3);
  }

  /** The tag word sits right after the opening backticks. */
  lemma CodeBlockAt(w: string, code: string, m: nat)
    requires m < |w|
    ensures var s := CodeBlock("", w, code); 3 + m < |s| && s[3 + m] == w[m]
  {
    var a := "```" + "" + w;
    assert a[3 + m] == w[m];
    var b := a + "\n" + code;
    assert b[3 + m] == w[m];
    assert (b + "```")[3 + m] == w[m];
  }

  /** A code block starts with its backticks. */
  lemma CodeBlockOpens(w: string, code: string)
    ensures var s := CodeBlock("", w, code); 3 + |w| < |s| && s[..3] == "```"
  {
    var s := CodeBlock("", w, code);
    assert s[..3] == ("```" + "" + w + "\n" + code)[..3];
  }

  /** A code block with an untagged word and plain code is a lone block. */
  lemma CodeBlockIsLone(w: string, code: string)
    requires TagWord(w) && NoneOf(code, {'`'})
    ensures var s := CodeBlock("", w, code);
      |s| > 6 && s[..3] == "```" && s[|s| - 3..] == "```" && NoneOf(s[3..|s| - 3], {'`'})
  {
    CodeBlockLayout("", w, code);
    CodeBlockInside("", w, code);
  }

  /** A pattern that wants a newline right after a tag shorter than `w`
      leaves the code block alone. */
  lemma BlockSkipsShorterTag(f: Fence, w: string, code: string)
    requires ValidFence(f) && f.newline && TagWord(w) && NoneOf(code, {'`'})
    requires |f.upper| < |w|
    ensures FenceSub(f, CodeBlock("", w, code)) == CodeBlock("", w, code)
  {
    CodeBlockIsLone(w, code);
    ShorterTagNoFence(f, w, code);
    LoneBlockSub(f, CodeBlock("", w, code));
  }

  lemma ShorterTagNoFence(f: Fence, w: string, code: string)
    requires ValidFence(f) && f.newline && TagWord(w)
    requires |f.upper| < |w|
    ensures FenceAt(f, CodeBlock("", w, code), 0).None?
  {
    CodeBlockAt(w, code, 0);
    CodeBlockAt(w, code, |f.upper|);
    NoNewlineNoFence(f, CodeBlock("", w, code));
  }

  /** A pattern that needs a newline after its tag does not match at the start
      when something else follows the tag. */
  lemma NoNewlineNoFence(f: Fence, s: string)
    requires ValidFence(f) && f.newline && 3 + |f.upper| < |s| && !IsSpace(s[3])
    requires s[3 + |f.upper|] != '\n'
    ensures FenceAt(f, s, 0).None?
  {
    SkipSpacesOver(s, 3, 3);
  }

  /** A code block without a tag. */
  function BareBlock(code: string): string {
    "```\n" + code + "```"
  }

  /** A pattern that wants its tag right after the backticks leaves a bare
      code block alone. */
  lemma BareBlockKept(f: Fence, code: string)
    requires ValidFence(f) && !f.spaces && f.upper[0] != '\n' && f.lower[0] != '\n'
    requires NoneOf(code, {'`'})
    ensures FenceSub(f, BareBlock(code)) == BareBlock(code)
  {
    var s := BareBlock(code);
    assert s[..3] == "```" && s[|s| - 3..] == "```" && s[3] == '\n';
    assert NoneOf(s[3..|s| - 3], {'`'}) by {
      assert forall m :: 4 <= m < |s| - 3 ==> s[m] == code[m - 4];
    }
    LoneBlockSub(f, s);
  }

  /** A pattern that stops after its tag turns ```` ```w ```` into a bare
      fence and leaves the newline after the tag in place. */
  lemma FenceKeepsNewline(f: Fence, w: string, code: string)
    requires ValidFence(f) && !f.newline && !f.spaces && Accepts(f, w) && TagWord(w)
    requires NoneOf(code, {'`'})
    ensures FenceSub(f, CodeBlock("", w, code)) == BareBlock("\n" + code)
  {
    var s := CodeBlock("", w, code);
    CodeBlockIsLone(w, code);
    TagWithoutNewline(f, w, code);
    LoneBlockSub(f, s);
    BlockAfterTag(w, code);
  }

  lemma TagWithoutNewline(f: Fence, w: string, code: string)
    requires ValidFence(f) && !f.newline && !f.spaces && Accepts(f, w) && TagWord(w)
    ensures FenceAt(f, CodeBlock("", w, code), 0) == Some(3 + |w|)
  {
    var s := CodeBlock("", w, code);
    forall m | 0 <= m < |w|
      ensures s[3 + m] == w[m]
    {
      CodeBlockAt(w, code, m);
    }
    CodeBlockOpens(w, code);
    TagOfWord(f, w, s, 3);
    FenceAtTag(f, s);
  }

  /** A word the tag accepts, found at `j`, is a match of the tag there. */
  lemma TagOfWord(f: Fence, w: string, s: string, j: nat)
    requires Accepts(f, w) && j + |w| <= |s|
    requires forall m :: 0 <= m < |w| ==> s[j + m] == w[m]
    ensures TagAt(f, s, j)
  {
  }

  /** A pattern without whitespace or newline matches at the start exactly up
      to the end of its tag. */
  lemma FenceAtTag(f: Fence, s: string)
    requires !f.newline && !f.spaces && 3 <= |s| && s[..3] == "```" && TagAt(f, s, 3)
    ensures FenceAt(f, s, 0) == Some(3 + |f.upper|)
  {
    assert s[0..3] == s[..3];
  }

  lemma BlockAfterTag(w: string, code: string)
    ensures CodeBlock("", w, code)[3 + |w|..] == "\n" + code + "```"
  {
    CodeBlockLayout("", w, code);
  }

  /** A list of patterns of which only the one at `t` matches the code block,
      and none after it touches the bare block it leaves, turns the code block
      into that bare block. */
  lemma ApplyFencesRewriteBlock(fs: seq<Fence>, t: nat, s: string, u: string)
    requires t < |fs|
    requires forall k :: 0 <= k < t ==> FenceSub(fs[k], s) == s
    requires FenceSub(fs[t], s) == u
    requires forall k :: t < k < |fs| ==> FenceSub(fs[k], u) == u
    ensures ApplyFences(fs, s) == u
  {
    ApplyFencesKeeps(fs, s, t);
    assert fs[..t + 1][..t] == fs[..t];
    ApplyFencesAfter(fs, t, s, u, |fs|);
    assert fs[..|fs|] == fs;
  }

  lemma {:induction false} ApplyFencesAfter(fs: seq<Fence>, t: nat, s: string, u: string, n: nat)
    requires t < n <= |fs|
    requires ApplyFences(fs[..t + 1], s) == u
    requires forall k :: t < k < |fs| ==> FenceSub(fs[k], u) == u
    ensures ApplyFences(fs[..n], s) == u
    decreases n
  {
    if n > t + 1 {
      assert fs[..n][..n - 1] == fs[..n - 1];
      ApplyFencesAfter(fs, t, s, u, n - 1);
    }
  }

  /** Patterns that leave `s` alone, applied one after the other, leave it alone. */
  lemma {:induction false} ApplyFencesKeeps(fs: seq<Fence>, s: string, n: nat)
    requires n <= |fs|
    requires forall k :: 0 <= k < n ==> FenceSub(fs[k], s) == s
    ensures ApplyFences(fs[..n], s) == s
    decreases n
  {
    if n > 0 {
      assert fs[..n][..n - 1] == fs[..n - 1];
      ApplyFencesKeeps(fs, s, n - 1);
    }
  }

  /** `python` is a tag word. */
  lemma PythonWord()
    ensures TagWord("python")
  {
    assert forall m :: 0 <= m < 6 ==> "python"[m] in "python";
  }

  /** None of the patterns before the Python one matches a `python` code block. */
  lemma PythonBlockSkips(k: nat, code: string)
    requires 0 <= k < 25 && NoneOf(code, {'`'})
    ensures FenceSub(ReplyFence(k), CodeBlock("", "python", code)) == CodeBlock("", "python", code)
  {
    PythonWord();
    match k
    case 0 => BlockSkipsFence(ReplyFence(0), "python", code, 0);
    case 1 => BlockSkipsFence(ReplyFence(1), "python", code, 0);
    case 2 => BlockSkipsFence(ReplyFence(2), "python", code, 0);
    case 3 => BlockSkipsFence(ReplyFence(3), "python", code, 0);
    case 4 => BlockSkipsFence(ReplyFence(4), "python", code, 0);
    case 5 => BlockSkipsFence(ReplyFence(5), "python", code, 0);
    case 6 => BlockSkipsFence(ReplyFence(6), "python", code, 0);
    case 7 => BlockSkipsFence(ReplyFence(7), "python", code, 0);
    case 8 => BlockSkipsFence(ReplyFence(8), "python", code, 0);
    case 9 => BlockSkipsFence(ReplyFence(9), "python", code, 0);
    case 10 => BlockSkipsFence(ReplyFence(10), "python", code, 0);
    case 11 => BlockSkipsFence(ReplyFence(11), "python", code, 0);
    case 12 => BlockSkipsFence(ReplyFence(12), "python", code, 0);
    case 13 => BlockSkipsFence(ReplyFence(13), "python", code, 0);
    case 14 => BlockSkipsFence(ReplyFence(14), "python", code, 0);
    case 15 => BlockSkipsFence(ReplyFence(15), "python", code, 0);
    case 16 => BlockSkipsFence(ReplyFence(16), "python", code, 0);
    case 17 => BlockSkipsFence(ReplyFence(17), "python", code, 0);
    case 18 => BlockSkipsFence(ReplyFence(18), "python", code, 0);
    case 19 => BlockSkipsFence(ReplyFence(19), "python", code, 0);
    case 20 => BlockSkipsFence(ReplyFence(20), "python", code, 0);
    case 21 => BlockSkipsFence(ReplyFence(21), "python", code, 1);
    case 22 => BlockSkipsFence(ReplyFence(22), "python", code, 1);
    case 23 => BlockSkipsFence(ReplyFence(23), "python", code, 0);
    case _ => BlockSkipsFence(ReplyFence(24), "python", code, 0);
  }

  /** The tag patterns turn a `python` code block into a bare one: the Python
      pattern removes the tag and no other pattern touches it. */
  lemma ReplyFencesOnPython(code: string)
    requires NoneOf(code, {'`'})
    ensures ApplyFences(ReplyFences, CodeBlock("", "python", code)) == "```\n" + code + "```"
  {
    PythonBlockSkipsAll(code);
    PythonWord();
    ReplyFencesAt(25);
    assert ReplyFences[..26][..25] == ReplyFences[..25];
    FenceRewritesTag(ReplyFence(25), "", "python", code);
  }

  lemma PythonBlockSkipsAll(code: string)
    requires NoneOf(code, {'`'})
    ensures ApplyFences(ReplyFences[..25], CodeBlock("", "python", code)) == CodeBlock("", "python", code)
  {
    var s := CodeBlock("", "python", code);
    forall k | 0 <= k < 25
      ensures FenceSub(ReplyFences[k], s) == s
    {
      ReplyFencesAt(k);
      PythonBlockSkips(k, code);
    }
    ApplyFencesKeeps(ReplyFences, s, 25);
  }

  /** A reply that is a `python` code block after any leading newlines comes
      out as a bare code block. */
  lemma FormatAssistantReplyPython(n: nat, code: string, wide: WidthTable)
    requires NoneOf(code, {'`'})
    ensures FormatAssistantReply(Newlines(n) + CodeBlock("", "python", code), false, wide) == "```\n" + code + "```"
  {
    var s := CodeBlock("", "python", code);
    assert s[..3] == "```";
    StripNewlinesOf(n, s);
    assert StripMentionPrefix(s) == s;
    ReplyFencesOnPython(code);
  }

  /** The TypeScript pattern of the list reads `[Ty]ype[Ss]cript`, so a
      `typescript` code block keeps its tag. */
  lemma TypeScriptTagKept(code: string)
    requires NoneOf(code, {'`'})
    ensures FenceSub(ReplyFences[24], CodeBlock("", "typescript", code)) == CodeBlock("", "typescript", code)
  {
    assert TagWord("typescript") by {
      assert forall m :: 0 <= m < 10 ==> "typescript"[m] in "typescript";
    }
    ReplyFencesAt(24);
    BlockSkipsFence(ReplyFence(24), "typescript", code, 0);
  }

  /** The Objective-C pattern reads `[Oo]objective[Cc]`, so an `objectivec`
      code block keeps its tag. */
  lemma ObjectiveCTagKept(code: string)
    requires NoneOf(code, {'`'})
    ensures FenceSub(ReplyFences[7], CodeBlock("", "objectivec", code)) == CodeBlock("", "objectivec", code)
  {
    assert TagWord("objectivec") by {
      assert forall m :: 0 <= m < 10 ==> "objectivec"[m] in "objectivec";
    }
    ReplyFencesAt(7);
    BlockSkipsFence(ReplyFence(7), "objectivec", code, 1);
  }

  /** The Rust pattern takes any whitespace after the fence and either case
      of the tag's first letter. */
  lemma RustTagRemoved(spaces: string, w: string, code: string)
    requires w == "Rust" || w == "rust"
    requires NoneOf(code, {'`'}) && (forall k :: 0 <= k < |spaces| ==> IsSpace(spaces[k]))
    ensures FenceSub(ReplyFences[0], CodeBlock(spaces, w, code)) == "```\n" + code + "```"
  {
    assert TagWord(w) by {
      assert forall m :: 0 <= m < 4 ==> w[m] in "Rrust";
    }
    ReplyFencesAt(0);
    FenceRewritesTag(ReplyFence(0), spaces, w, code);
  }
}
