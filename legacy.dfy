/** internals.py: the older request path for `gpt-3.5-turbo-0301`. Message
    contents are unescaped and the earliest user messages are dropped before
    the request is sent; replies lose their leading newlines and code-fence
    tags. */
module Internals {
  import opened Wrappers
  import opened Chars
  import TokenCounting
  import opened ReplyFormatting

  /** `MAX_TOKENS` of internals.py. */
  const ReplyTokens := 1024

  /** The only model whose tokens internals.py can count. */
  const CountedModel := "gpt-3.5-turbo-0301"

  /** The count the preprocessing loop must get below: the 4096-token window
      of `gpt-3.5-turbo-0301` less the reply budget. */
  const TrimThreshold := 4096 - ReplyTokens

  /** A message dict: always a role and a content, sometimes a name. */
  datatype ChatMessage = ChatMessage(role: string, content: string, name: Option<string>)

  /** `message.items()`, in insertion order. */
  function Items(m: ChatMessage): (items: seq<(string, string)>)
    ensures |items| == if m.name.Some? then 3 else 2
    ensures items[0] == ("role", m.role) && items[1] == ("content", m.content)
    ensures m.name.Some? ==> items[2] == ("name", m.name.value)
  {
    [("role", m.role), ("content", m.content)] + (if m.name.Some? then [("name", m.name.value)] else [])
  }

  /*** Counting ***/

  /** What a message adds: four tokens of framing, the encoded length of every
      value, and one token less when a name replaces the role. */
  function MessageTokens(m: ChatMessage, enc: TokenCounting.Tokenizer): int {
    4 + enc(m.role) + enc(m.content) + (if m.name.Some? then enc(m.name.value) - 1 else 0)
  }

  function SumMessageTokens(ms: seq<ChatMessage>, enc: TokenCounting.Tokenizer): int {
    if ms == [] then 0 else SumMessageTokens(ms[..|ms| - 1], enc) + MessageTokens(ms[|ms| - 1], enc)
  }

  /** The count for `gpt-3.5-turbo-0301`: every message, and two tokens that
      prime the reply. */
  function LegacyNumTokens(ms: seq<ChatMessage>, enc: TokenCounting.Tokenizer): int {
    SumMessageTokens(ms, enc) + 2
  }

  /** What the inner loop adds for the first items of a message. */
  function ItemsTokens(items: seq<(string, string)>, enc: TokenCounting.Tokenizer): int {
    if items == [] then 0
    else
      var last := items[|items| - 1];
      ItemsTokens(items[..|items| - 1], enc) + enc(last.1) + (if last.0 == "name" then -1 else 0)
  }

  /** The inner loop over `message.items()` adds what the message costs. */
  lemma ItemsTokensOfMessage(m: ChatMessage, enc: TokenCounting.Tokenizer)
    ensures 4 + ItemsTokens(Items(m), enc) == MessageTokens(m, enc)
  {
    var items := Items(m);
    assert ItemsTokens(items[..1], enc) == enc(m.role) by {
      assert items[..1][..0] == [];
    }
    assert ItemsTokens(items[..2], enc) == enc(m.role) + enc(m.content) by {
      assert items[..2][..1] == items[..1];
    }
    if m.name.Some? {
      assert items[..2] == items[..|items| - 1];
    } else {
      assert items == items[..2];
    }
  }

  /** `calculate_num_tokens(messages, model)`: the encoding is looked up
      first, then any model other than `gpt-3.5-turbo-0301` is refused. */
  method CalculateNumTokens(messages: seq<ChatMessage>, model: string, encodingFor: TokenCounting.EncodingTable)
    returns (r: Result<int, Error>)
    ensures model == CountedModel ==> r == Success(LegacyNumTokens(messages, encodingFor(model)))
    ensures model != CountedModel ==> r == Failure(NotImplemented(model))
  {
    var encoding := encodingFor(model);
    if model != CountedModel {
      return Failure(NotImplemented(model));
    }
    var numTokens := 0;
    for i := 0 to |messages|
      invariant numTokens == SumMessageTokens(messages[..i], encoding)
    {
      numTokens := numTokens + 4;
      var items := Items(messages[i]);
      for j := 0 to |items|
        invariant numTokens == SumMessageTokens(messages[..i], encoding) + 4 + ItemsTokens(items[..j], encoding)
      {
        assert items[..j + 1][..j] == items[..j];
        numTokens := numTokens + encoding(items[j].1);
        if items[j].0 == "name" {
          numTokens := numTokens - 1;
        }
      }
      assert items[..|items|] == items;
      ItemsTokensOfMessage(messages[i], encoding);
      assert messages[..i + 1][..i] == messages[..i];
    }
    assert messages[..|messages|] == messages;
    numTokens := numTokens + 2;
    return Success(numTokens);
  }

  /** Every message costs at least three tokens, whatever the encoding. */
  lemma MessageTokensAtLeastThree(m: ChatMessage, enc: TokenCounting.Tokenizer)
    ensures MessageTokens(m, enc) >= 3
  {
  }

  lemma {:induction false} SumMessageTokensAppend(a: seq<ChatMessage>, b: seq<ChatMessage>, enc: TokenCounting.Tokenizer)
    ensures SumMessageTokens(a + b, enc) == SumMessageTokens(a, enc) + SumMessageTokens(b, enc)
    decreases |b|
  {
    if b == [] {
      assert a + b == a;
    } else {
      assert (a + b)[..|a + b| - 1] == a + b[..|b| - 1];
      SumMessageTokensAppend(a, b[..|b| - 1], enc);
    }
  }

  /** Deleting a message takes exactly its cost off the count. */
  lemma DeleteTokens(ms: seq<ChatMessage>, i: nat, enc: TokenCounting.Tokenizer)
    requires i < |ms|
    ensures LegacyNumTokens(Delete(ms, i), enc) == LegacyNumTokens(ms, enc) - MessageTokens(ms[i], enc)
  {
    assert ms == ms[..i] + [ms[i]] + ms[i + 1..];
    SumMessageTokensAppend(ms[..i] + [ms[i]], ms[i + 1..], enc);
    SumMessageTokensAppend(ms[..i], [ms[i]], enc);
    SumMessageTokensAppend(ms[..i], ms[i + 1..], enc);
    assert SumMessageTokens([ms[i]], enc) == MessageTokens(ms[i], enc) by {
      assert [ms[i]][..0] == [];
    }
  }

  /*** Preprocessing ***/

  /** The message with its content unescaped. */
  function UnescapeMessage(m: ChatMessage): ChatMessage {
    m.(content := Unescape(m.content))
  }

  /** Every message with its content unescaped; roles, names and order stay. */
  function UnescapeContents(ms: seq<ChatMessage>): (r: seq<ChatMessage>)
    ensures |r| == |ms|
    ensures forall i :: 0 <= i < |ms| ==> r[i] == UnescapeMessage(ms[i])
  {
    if ms == [] then [] else UnescapeContents(ms[..|ms| - 1]) + [UnescapeMessage(ms[|ms| - 1])]
  }

  /** A message Slack escaped comes back as it was written. */
  lemma UnescapeContentsOfEscaped(ms: seq<ChatMessage>, written: seq<string>)
    requires |written| == |ms|
    requires forall i :: 0 <= i < |ms| ==> ms[i].content == Escape(written[i])
    ensures forall i :: 0 <= i < |ms| ==>
      UnescapeContents(ms)[i] == ms[i].(content := written[i])
  {
    forall i | 0 <= i < |ms|
      ensures UnescapeContents(ms)[i] == ms[i].(content := written[i])
    {
      UnescapeEscape(written[i]);
    }
  }

  /** The first message whose role is `user`. */
  function FirstUser(ms: seq<ChatMessage>): (r: Option<nat>)
    ensures r.Some? ==> r.value < |ms|
  {
    if ms == [] then None
    else if ms[0].role == "user" then Some(0)
    else match FirstUser(ms[1..])
      case None => None
      case Some(i) => Some(i + 1)
  }

  /** The index found is the first user message, and none is found exactly
      when there is no user message. */
  lemma {:induction false} FirstUserIsFirst(ms: seq<ChatMessage>)
    ensures var r := FirstUser(ms);
      && (r.Some? ==> ms[r.value].role == "user" && forall j :: 0 <= j < r.value ==> ms[j].role != "user")
      && (r.None? <==> forall j :: 0 <= j < |ms| ==> ms[j].role != "user")
    decreases |ms|
  {
    if ms != [] && ms[0].role != "user" {
      FirstUserIsFirst(ms[1..]);
      assert forall j :: 1 <= j < |ms| ==> ms[j] == ms[1..][j - 1];
    }
  }

  /** `del messages[i]`. */
  function Delete(ms: seq<ChatMessage>, i: nat): seq<ChatMessage>
    requires i < |ms|
  {
    ms[..i] + ms[i + 1..]
  }

  /** The outcome of the preprocessing `while` loop. */
  function LegacyTrim(ms: seq<ChatMessage>, enc: TokenCounting.Tokenizer): seq<ChatMessage>
    decreases |ms|
  {
    if LegacyNumTokens(ms, enc) < TrimThreshold then ms
    else match FirstUser(ms)
      case None => ms
      case Some(i) => LegacyTrim(Delete(ms, i), enc)
  }

  /** The conversation after the `k` earliest user messages are deleted. */
  function DropUsers(ms: seq<ChatMessage>, k: nat): seq<ChatMessage>
    decreases k
  {
    if k == 0 then ms
    else match FirstUser(ms)
      case None => ms
      case Some(i) => DropUsers(Delete(ms, i), k - 1)
  }

  /** The messages that are not user messages, in order. */
  function Others(ms: seq<ChatMessage>): seq<ChatMessage> {
    if ms == [] then [] else (if ms[0].role == "user" then [] else [ms[0]]) + Others(ms[1..])
  }

  /** The message list `call_openai` is handed; it is changed in place. */
  class ChatRequest {
    var messages: seq<ChatMessage>

    constructor (messages: seq<ChatMessage>)
      ensures this.messages == messages
    {
      this.messages := messages;
    }

    /** The preprocessing of `call_openai`: every content is unescaped, then
        the earliest user message is deleted while the count is at least the
        threshold and a user message is left. The request that follows is
        not part of this model. */
    method CallOpenAI(encodingFor: TokenCounting.EncodingTable)
      modifies this
      ensures messages == LegacyTrim(UnescapeContents(old(messages)), encodingFor(CountedModel))
    {
      UnescapeAll();
      DropOldUserMessages(encodingFor);
    }

    /** The `for` loop: each content has `&lt;`, then `&gt;`, then `&amp;` replaced. */
    method UnescapeAll()
      modifies this
      ensures messages == UnescapeContents(old(messages))
    {
      for i := 0 to |messages|
        invariant |messages| == |old(messages)|
        invariant forall j :: 0 <= j < i ==> messages[j] == UnescapeMessage(old(messages)[j])
        invariant forall j :: i <= j < |messages| ==> messages[j] == old(messages)[j]
      {
        var content := messages[i].content;
        content := ReplaceAll(content, "&lt;", "<");
        content := ReplaceAll(content, "&gt;", ">");
        content := ReplaceAll(content, "&amp;", "&");
        messages := messages[i := messages[i].(content := content)];
      }
    }

    /** The `while` loop: while the count is at least the threshold, delete
        the first user message, and give up when there is none. */
    method DropOldUserMessages(encodingFor: TokenCounting.EncodingTable)
      modifies this
      ensures messages == LegacyTrim(old(messages), encodingFor(CountedModel))
    {
      ghost var enc := encodingFor(CountedModel);
      while true
        invariant LegacyTrim(messages, enc) == LegacyTrim(old(messages), enc)
        decreases |messages|
      {
        var counted := CalculateNumTokens(messages, CountedModel, encodingFor);
        if counted.value < TrimThreshold {
          break;
        }
        var removed := false;
        var i := FindUser(messages);
        if i < |messages| {
          LegacyTrimStep(messages, enc, i);
          messages := Delete(messages, i);
          removed := true;
        }
        if !removed {
          break;
        }
      }
    }
  }

  /** The inner `for` loop: the index of the first user message, or the
      length when there is none. */
  method FindUser(ms: seq<ChatMessage>) returns (i: nat)
    ensures i <= |ms|
    ensures i < |ms| ==> FirstUser(ms) == Some(i)
    ensures i == |ms| ==> FirstUser(ms).None?
  {
    i := 0;
    while i < |ms| && ms[i].role != "user"
      invariant 0 <= i <= |ms|
      invariant forall j :: 0 <= j < i ==> ms[j].role != "user"
    {
      i := i + 1;
    }
    FirstUserIsFirst(ms);
  }

  /** One deletion of the legacy loop. */
  lemma LegacyTrimStep(ms: seq<ChatMessage>, enc: TokenCounting.Tokenizer, i: nat)
    requires LegacyNumTokens(ms, enc) >= TrimThreshold && FirstUser(ms) == Some(i)
    ensures LegacyTrim(ms, enc) == LegacyTrim(Delete(ms, i), enc)
  {
  }

  /** Deleting a user message leaves the other messages as they were. */
  lemma {:induction false} OthersDelete(ms: seq<ChatMessage>, i: nat)
    requires i < |ms| && ms[i].role == "user"
    ensures Others(Delete(ms, i)) == Others(ms)
    decreases i
  {
    if i == 0 {
      assert Delete(ms, 0) == ms[1..];
    } else {
      assert Delete(ms, i)[1..] == Delete(ms[1..], i - 1);
      OthersDelete(ms[1..], i - 1);
    }
  }

  lemma {:induction false} OthersOfNoUser(ms: seq<ChatMessage>)
    requires forall j :: 0 <= j < |ms| ==> ms[j].role != "user"
    ensures Others(ms) == ms
    decreases |ms|
  {
    if ms != [] {
      OthersOfNoUser(ms[1..]);
      assert [ms[0]] + ms[1..] == ms;
    }
  }

  /** System and assistant messages, and every other non-user message, are
      never deleted and keep their order. */
  lemma {:induction false} LegacyTrimKeepsOthers(ms: seq<ChatMessage>, enc: TokenCounting.Tokenizer)
    ensures Others(LegacyTrim(ms, enc)) == Others(ms)
    decreases |ms|
  {
    if LegacyNumTokens(ms, enc) >= TrimThreshold {
      match FirstUser(ms)
      case None =>
      case Some(i) =>
        FirstUserIsFirst(ms);
        OthersDelete(ms, i);
        LegacyTrimKeepsOthers(Delete(ms, i), enc);
    }
  }

  /** The loop stops below the threshold, or with no user message left, in
      which case only the other messages remain. */
  lemma {:induction false} LegacyTrimStops(ms: seq<ChatMessage>, enc: TokenCounting.Tokenizer)
    ensures var t := LegacyTrim(ms, enc);
      || LegacyNumTokens(t, enc) < TrimThreshold
      || (FirstUser(t).None? && t == Others(ms))
    decreases |ms|
  {
    if LegacyNumTokens(ms, enc) >= TrimThreshold {
      match FirstUser(ms)
      case None =>
        FirstUserIsFirst(ms);
        OthersOfNoUser(ms);
      case Some(i) =>
        FirstUserIsFirst(ms);
        OthersDelete(ms, i);
        LegacyTrimStops(Delete(ms, i), enc);
    }
  }

  /** The loop deletes exactly the `k` earliest user messages, each while the
      count was still at or above the threshold. */
  lemma {:induction false} LegacyTrimDropsEarliest(ms: seq<ChatMessage>, enc: TokenCounting.Tokenizer) returns (k: nat)
    ensures LegacyTrim(ms, enc) == DropUsers(ms, k)
    ensures forall j :: 0 <= j < k ==> LegacyNumTokens(DropUsers(ms, j), enc) >= TrimThreshold
    decreases |ms|
  {
    if LegacyNumTokens(ms, enc) < TrimThreshold {
      return 0;
    }
    match FirstUser(ms)
    case None =>
      return 0;
    case Some(i) =>
      var k' := LegacyTrimDropsEarliest(Delete(ms, i), enc);
      k := k' + 1;
      DropUsersStep(ms, i, k);
      forall j | 0 <= j < k
        ensures LegacyNumTokens(DropUsers(ms, j), enc) >= TrimThreshold
      {
        if j > 0 {
          DropUsersStep(ms, i, j);
        }
      }
  }

  lemma DropUsersStep(ms: seq<ChatMessage>, i: nat, j: nat)
    requires FirstUser(ms) == Some(i) && j > 0
    ensures DropUsers(ms, j) == DropUsers(Delete(ms, i), j - 1)
  {
  }

  /*** Reply formatting ***/

  /** Tag pattern `k` of internals.py's `format_assistant_reply`, in the
      order of its list: no whitespace before the tag, and the JavaScript and
      TypeScript patterns end at the tag. */
  function LegacyFence(k: int): Fence {
    match k
    case 0 => Fence("Rust", "rust", false, true)
    case 1 => Fence("Ruby", "ruby", false, true)
    case 2 => Fence("Scala", "scala", false, true)
    case 3 => Fence("Kotlin", "kotlin", false, true)
    case 4 => Fence("Java", "java", false, true)
    case 5 => Fence("Go", "go", false, true)
    case 6 => Fence("Swift", "swift", false, true)
    case 7 => Fence("OobjectiveC", "oobjectivec", false, true)
    case 8 => Fence("C", "c", false, true)
    case 9 => Fence("SQL", "sql", false, true)
    case 10 => Fence("PHP", "php", false, true)
    case 11 => Fence("PERL", "perl", false, true)
    case 12 => Fence("JavaScript", "javascript", false, false)
    case 13 => Fence("TypeScript", "yypescript", false, false)
    case _ => Fence("Python", "python", false, true)  // 14
  }

  const LegacyFences: seq<Fence> :=
    [ LegacyFence(0), LegacyFence(1), LegacyFence(2), LegacyFence(3), LegacyFence(4),
      LegacyFence(5), LegacyFence(6), LegacyFence(7), LegacyFence(8), LegacyFence(9),
      LegacyFence(10), LegacyFence(11), LegacyFence(12), LegacyFence(13), LegacyFence(14) ]

  lemma LegacyFencesAt(k: int)
    requires 0 <= k < 15
    ensures LegacyFences[k] == LegacyFence(k)
  {
  }

  /** The reply `format_assistant_reply` returns: leading newlines go, then
      every tag pattern is applied in turn. */
  function LegacyReply(content: string): string {
    ApplyFences(LegacyFences, StripLeadingNewlines(content))
  }

  /** `format_assistant_reply(content)`: the loop rebinds `result` once per pattern. */
  method FormatAssistantReply(content: string) returns (result: string)
    ensures result == LegacyReply(content)
  {
    result := StripLeadingNewlines(content);
    ghost var stripped := result;
    for i := 0 to |LegacyFences|
      invariant result == ApplyFences(LegacyFences[..i], stripped)
    {
      assert LegacyFences[..i + 1][..i] == LegacyFences[..i];
      result := FenceSub(LegacyFences[i], result);
    }
    assert LegacyFences[..|LegacyFences|] == LegacyFences;
  }

  /** The tags the lemmas below feed to the patterns are tag words. */
  lemma TagWords()
    ensures TagWord("python") && TagWord("ruby") && TagWord("java") && TagWord("javascript")
  {
    assert forall m :: 0 <= m < 6 ==> "python"[m] in "python";
    assert forall m :: 0 <= m < 4 ==> "ruby"[m] in "ruby";
    assert forall m :: 0 <= m < 4 ==> "java"[m] in "java";
    assert forall m :: 0 <= m < 10 ==> "javascript"[m] in "javascript";
  }

  /** A reply without backticks only loses its leading newlines. */
  lemma LegacyReplyWithoutFences(content: string)
    requires NoneOf(content, {'`'})
    ensures LegacyReply(content) == StripLeadingNewlines(content)
  {
    var stripped := StripLeadingNewlines(content);
    NoneOfTail(content, |content| - |stripped|, {'`'});
    ApplyFencesWithoutBacktick(LegacyFences, stripped);
  }

  /** Every pattern wants its tag right after the backticks, so none touches
      a bare code block. */
  lemma LegacyBareKept(k: int, code: string)
    requires 0 <= k < 15 && NoneOf(code, {'`'})
    ensures FenceSub(LegacyFences[k], BareBlock(code)) == BareBlock(code)
  {
    LegacyFencesAt(k);
    match k
    case 0 => BareBlockKept(LegacyFence(0), code);
    case 1 => BareBlockKept(LegacyFence(1), code);
    case 2 => BareBlockKept(LegacyFence(2), code);
    case 3 => BareBlockKept(LegacyFence(3), code);
    case 4 => BareBlockKept(LegacyFence(4), code);
    case 5 => BareBlockKept(LegacyFence(5), code);
    case 6 => BareBlockKept(LegacyFence(6), code);
    case 7 => BareBlockKept(LegacyFence(7), code);
    case 8 => BareBlockKept(LegacyFence(8), code);
    case 9 => BareBlockKept(LegacyFence(9), code);
    case 10 => BareBlockKept(LegacyFence(10), code);
    case 11 => BareBlockKept(LegacyFence(11), code);
    case 12 => BareBlockKept(LegacyFence(12), code);
    case 13 => BareBlockKept(LegacyFence(13), code);
    case _ => BareBlockKept(LegacyFence(14), code);
  }

  /** None of the patterns before the Python one matches a `python` code block. */
  lemma LegacyPythonSkips(k: int, code: string)
    requires 0 <= k < 14 && NoneOf(code, {'`'})
    ensures FenceSub(LegacyFences[k], CodeBlock("", "python", code)) == CodeBlock("", "python", code)
  {
    TagWords();
    LegacyFencesAt(k);
    match k
    case 0 => BlockSkipsFence(LegacyFence(0), "python", code, 0);
    case 1 => BlockSkipsFence(LegacyFence(1), "python", code, 0);
    case 2 => BlockSkipsFence(LegacyFence(2), "python", code, 0);
    case 3 => BlockSkipsFence(LegacyFence(3), "python", code, 0);
    case 4 => BlockSkipsFence(LegacyFence(4), "python", code, 0);
    case 5 => BlockSkipsFence(LegacyFence(5), "python", code, 0);
    case 6 => BlockSkipsFence(LegacyFence(6), "python", code, 0);
    case 7 => BlockSkipsFence(LegacyFence(7), "python", code, 0);
    case 8 => BlockSkipsFence(LegacyFence(8), "python", code, 0);
    case 9 => BlockSkipsFence(LegacyFence(9), "python", code, 0);
    case 10 => BlockSkipsFence(LegacyFence(10), "python", code, 1);
    case 11 => BlockSkipsFence(LegacyFence(11), "python", code, 1);
    case 12 => BlockSkipsFence(LegacyFence(12), "python", code, 0);
    case _ => BlockSkipsFence(LegacyFence(13), "python", code, 0);
  }

  /** None of the patterns before the Java one matches a `java` code block. */
  lemma LegacyJavaSkips(k: int, code: string)
    requires 0 <= k < 4 && NoneOf(code, {'`'})
    ensures FenceSub(LegacyFences[k], CodeBlock("", "java", code)) == CodeBlock("", "java", code)
  {
    TagWords();
    LegacyFencesAt(k);
    match k
    case 0 => BlockSkipsFence(LegacyFence(0), "java", code, 0);
    case 1 => BlockSkipsFence(LegacyFence(1), "java", code, 0);
    case 2 => BlockSkipsFence(LegacyFence(2), "java", code, 0);
    case _ => BlockSkipsFence(LegacyFence(3), "java", code, 0);
  }

  /** None of the patterns before the JavaScript one matches a `javascript`
      code block; the Java one wants a newline after `java`. */
  lemma LegacyJavaScriptSkips(k: int, code: string)
    requires 0 <= k < 12 && NoneOf(code, {'`'})
    ensures FenceSub(LegacyFences[k], CodeBlock("", "javascript", code)) == CodeBlock("", "javascript", code)
  {
    TagWords();
    LegacyFencesAt(k);
    match k
    case 0 => BlockSkipsFence(LegacyFence(0), "javascript", code, 0);
    case 1 => BlockSkipsFence(LegacyFence(1), "javascript", code, 0);
    case 2 => BlockSkipsFence(LegacyFence(2), "javascript", code, 0);
    case 3 => BlockSkipsFence(LegacyFence(3), "javascript", code, 0);
    case 4 => BlockSkipsShorterTag(LegacyFence(4), "javascript", code);
    case 5 => BlockSkipsFence(LegacyFence(5), "javascript", code, 0);
    case 6 => BlockSkipsFence(LegacyFence(6), "javascript", code, 0);
    case 7 => BlockSkipsFence(LegacyFence(7), "javascript", code, 0);
    case 8 => BlockSkipsFence(LegacyFence(8), "javascript", code, 0);
    case 9 => BlockSkipsFence(LegacyFence(9), "javascript", code, 0);
    case 10 => BlockSkipsFence(LegacyFence(10), "javascript", code, 0);
    case _ => BlockSkipsFence(LegacyFence(11), "javascript", code, 0);
  }

  /** A reply that is a `python` code block after leading newlines comes out
      as a bare code block. */
  lemma LegacyReplyPython(n: nat, code: string)
    requires NoneOf(code, {'`'})
    ensures LegacyReply(Newlines(n) + CodeBlock("", "python", code)) == BareBlock(code)
  {
    StripNewlinesOf(n, CodeBlock("", "python", code));
    LegacyFencesOnPython(code);
  }

  lemma LegacyFencesOnPython(code: string)
    requires NoneOf(code, {'`'})
    ensures ApplyFences(LegacyFences, CodeBlock("", "python", code)) == BareBlock(code)
  {
    var s := CodeBlock("", "python", code);
    forall k | 0 <= k < 14
      ensures FenceSub(LegacyFences[k], s) == s
    {
      LegacyPythonSkips(k, code);
    }
    TagWords();
    LegacyFencesAt(14);
    FenceRewritesTag(LegacyFence(14), "", "python", code);
    ApplyFencesRewriteBlock(LegacyFences, 14, s, BareBlock(code));
  }

  /** A reply that is a `ruby` code block after leading newlines comes out
      as a bare code block. */
  lemma LegacyReplyRuby(n: nat, code: string)
    requires NoneOf(code, {'`'})
    ensures LegacyReply(Newlines(n) + CodeBlock("", "ruby", code)) == BareBlock(code)
  {
    StripNewlinesOf(n, CodeBlock("", "ruby", code));
    LegacyFencesOnRuby(code);
  }

  lemma LegacyFencesOnRuby(code: string)
    requires NoneOf(code, {'`'})
    ensures ApplyFences(LegacyFences, CodeBlock("", "ruby", code)) == BareBlock(code)
  {
    var s := CodeBlock("", "ruby", code);
    TagWords();
    LegacyFencesAt(0);
    BlockSkipsFence(LegacyFence(0), "ruby", code, 2);
    LegacyFencesAt(1);
    FenceRewritesTag(LegacyFence(1), "", "ruby", code);
    forall k | 1 < k < 15
      ensures FenceSub(LegacyFences[k], BareBlock(code)) == BareBlock(code)
    {
      LegacyBareKept(k, code);
    }
    ApplyFencesRewriteBlock(LegacyFences, 1, s, BareBlock(code));
  }

  /** A reply that is a `java` code block after leading newlines comes out
      as a bare code block; the JavaScript pattern does not see `java`. */
  lemma LegacyReplyJava(n: nat, code: string)
    requires NoneOf(code, {'`'})
    ensures LegacyReply(Newlines(n) + CodeBlock("", "java", code)) == BareBlock(code)
  {
    StripNewlinesOf(n, CodeBlock("", "java", code));
    LegacyFencesOnJava(code);
  }

  lemma LegacyFencesOnJava(code: string)
    requires NoneOf(code, {'`'})
    ensures ApplyFences(LegacyFences, CodeBlock("", "java", code)) == BareBlock(code)
  {
    var s := CodeBlock("", "java", code);
    forall k | 0 <= k < 4
      ensures FenceSub(LegacyFences[k], s) == s
    {
      LegacyJavaSkips(k, code);
    }
    TagWords();
    LegacyFencesAt(4);
    FenceRewritesTag(LegacyFence(4), "", "java", code);
    forall k | 4 < k < 15
      ensures FenceSub(LegacyFences[k], BareBlock(code)) == BareBlock(code)
    {
      LegacyBareKept(k, code);
    }
    ApplyFencesRewriteBlock(LegacyFences, 4, s, BareBlock(code));
  }

  /** The JavaScript pattern leaves the newline after its tag, so a
      `javascript` code block comes out with an empty first line. */
  lemma LegacyReplyJavaScript(n: nat, code: string)
    requires NoneOf(code, {'`'})
    ensures LegacyReply(Newlines(n) + CodeBlock("", "javascript", code)) == BareBlock("\n" + code)
  {
    StripNewlinesOf(n, CodeBlock("", "javascript", code));
    LegacyFencesOnJavaScript(code);
  }

  lemma LegacyFencesOnJavaScript(code: string)
    requires NoneOf(code, {'`'})
    ensures ApplyFences(LegacyFences, CodeBlock("", "javascript", code)) == BareBlock("\n" + code)
  {
    var s := CodeBlock("", "javascript", code);
    forall k | 0 <= k < 12
      ensures FenceSub(LegacyFences[k], s) == s
    {
      LegacyJavaScriptSkips(k, code);
    }
    TagWords();
    LegacyFencesAt(12);
    FenceKeepsNewline(LegacyFence(12), "javascript", code);
    forall k | 12 < k < 15
      ensures FenceSub(LegacyFences[k], BareBlock("\n" + code)) == BareBlock("\n" + code)
    {
      LegacyBareKept(k, "\n" + code);
    }
    ApplyFencesRewriteBlock(LegacyFences, 12, s, BareBlock("\n" + code));
  }
}
