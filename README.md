# ChatGPT-in-Slack: conversation preparation, in Dafny

This project models the part of the ChatGPT-in-Slack bot that gets conversations and text ready for the language model and for Slack. It also proves properties of that model. It covers six pieces:

- **The model registry** (`ModelRegistry`, registry.dfy):
  - the token-overhead, alias and context-window tables;
  - `resolve_model_alias`, a loop that walks the alias chain with a visited set.
- **Token counting** (`TokenCounting`, tokens.dfy):
  - `encode_and_count_tokens` and `calculate_num_tokens`, over a structural model of chat messages;
  - `context_length`, the separate hard-coded alias chain, modelled as written.
- **Context-window trimming** (`ContextWindow`, trimming.dfy): `messages_within_context_window`, a class whose message list is trimmed in place.
- **Slack mrkdwn ↔ Markdown conversion** (`MarkdownConversion`, markdown.dfy):
  - the code-span split;
  - the delimiter rewrites;
  - the spacing inserted next to East Asian wide characters.
- **Text normalisation** (`ReplyFormatting`, formatting.dfy):
  - entity unescaping (`format_openai_message_content`);
  - the anchored rewrites and the code-fence tag rewrites of `format_assistant_reply`.
- **The stream consumer** (`StreamConsumer`, stream.dfy):
  - the foreground loop of `consume_openai_stream_to_write_reply`: deltas are accumulated, a flush is requested every twentieth content delta, and exactly one final update is written;
  - the function-call branch, which appends the function's answer, trims and consumes the next stream.
- **The older implementation in internals.py** (`Internals`, legacy.dfy): its unescaping, its user-message trimming, its `calculate_num_tokens` and its `format_assistant_reply`.
- **UI translation** (`I18n`, i18n.dfy): the locale table, and `translate`'s guards and its `"lang:text"` cache.

Things the bot cannot see inside become parameters:

- the tokenizer, as `Tokenizer = string -> nat`, with the `tiktoken.encoding_for_model` table as `EncodingTable`;
- the Unicode East Asian width table, as `WidthTable`;
- the function-call module, as `Env.dispatch`;
- the translation request, as `Completion`.

Streams are finite sequences of chunks stamped with whole seconds. Python's `re` patterns are hand-written as deterministic scanners. `str.isspace` and `\s` are modelled as the fixed character set `Chars.IsSpace`.

The source writes `[Oo]objective[Cc]` and `[Ty]ype[Ss]cript` as its tag patterns. These are modelled as written, so the tags `objectivec` and `typescript` are kept; `TypeScriptTagKept` and `ObjectiveCTagKept` prove it. `context_length` ignores `MODEL_CONTEXT_LENGTHS` and raises for the GPT-5 and o-series names. It is also modelled as written, and `ContextLengthRejectsGpt5Family` states the mismatch.

## Model

| member | source | states |
|---|---|---|
| ModelRegistry.ResolveModelAlias | app/openai_constants.py:143-159 | `None` resolves to `None`; a name that is not an alias is returned unchanged; resolution succeeds exactly when the alias chain reaches a non-alias, returns that non-alias, and the result is reached by some number of fallback steps; otherwise it raises the circular-dependency error naming a model the chain meets twice |
| ModelRegistry.RevisitIsCycle | app/openai_constants.py:151-158 | a chain of alias steps that meets a model again can never leave the aliases, so raising on a revisit loses no answer |
| ModelRegistry.ShippedAliasesAreDated | app/openai_constants.py:46-140 | in the shipped tables every alias maps to a model that is not an alias and that has both token overheads and a context window |
| ModelRegistry.ShippedResolution | app/openai_constants.py:88-105 | with the shipped table no model is cyclic, and any number of steps from an alias lands on its dated model, which has overheads and a window |
| ModelRegistry.ResolveGpt4 | app/openai_constants.py:91 | `gpt-4` resolves to `gpt-4-0613` |
| TokenCounting.EntriesCost | app/openai_ops.py:450-463 | the per-item loop over a message adds up to its cost: the per-message overhead, the role and content lengths, name plus name overhead, and `1 + name + arguments` for a function call |
| TokenCounting.CalculateNumTokens | app/openai_ops.py:421-466 | for a model with registered overheads the result is 3 plus the sum of the message costs; a model without overheads is retried once through its fallback; otherwise it raises NotImplementedError naming the model |
| TokenCounting.CountTokens | app/openai_ops.py:450-464 | the nested loops over the messages and their items add up to 3 plus the sum of the message costs for the given overheads |
| TokenCounting.SumCostsAppend | app/openai_ops.py:450-463 | the count is additive over concatenations of conversations |
| TokenCounting.DeleteCost | app/openai_ops.py:95 | deleting a message lowers the count by exactly that message's cost |
| TokenCounting.MessageCostAtLeastThree | app/openai_constants.py:46-85 | with any registered overheads every message costs at least three tokens |
| TokenCounting.ImageUrlIsFree | app/openai_ops.py:409-414 | adding an `image_url` entry to a dictionary does not change its encoded count |
| TokenCounting.ContextLengthOfDated | app/openai_ops.py:366-395 | for every dated model `context_length` knows, it agrees with `MODEL_CONTEXT_LENGTHS` |
| TokenCounting.ContextLengthOfAlias | app/openai_ops.py:333-365 | each alias `context_length` knows gets the window of the model `MODEL_FALLBACKS` maps it to |
| TokenCounting.ContextLengthOnlyRegistered | app/openai_ops.py:330-398 | `context_length` answers only for registered names, and only with one of six window sizes |
| TokenCounting.ContextLengthRejectsGpt5Family | app/openai_ops.py:396-398 | the GPT-5 and o-series names are registered, yet `context_length` raises NotImplementedError for them |
| TokenCounting.ContextLengthRejectsUnregistered | app/openai_ops.py:396-398 | an unregistered name raises NotImplementedError naming it |
| ContextWindow.FirstRemovableIsFirst | app/openai_ops.py:92-93 | the index the inner loop stops at is the first user, assistant or function message; no index exists exactly when there is no such message |
| ContextWindow.FindRemovable | app/openai_ops.py:92-93 | the inner `for` loop returns the first removable index, or the length exactly when no message is removable |
| ContextWindow.DefaultOverheadsRegistered | app/openai_ops.py:423 | the default counting model `gpt-3.5-turbo-0613` has overheads (3, 1), so counting with it never raises |
| ContextWindow.Budget | app/openai_ops.py:86-88 | the budget is the context window less `MAX_TOKENS` less one, less the function-call reserve only when one is configured; an unknown model raises NotImplementedError |
| ContextWindow.Conversation.WithinContextWindow | app/openai_ops.py:79-104 | when `context_length` raises nothing is deleted; otherwise the messages become the trimmed list, and the report holds `num_context_tokens` and the budget |
| ContextWindow.Conversation.TrimToBudget | app/openai_ops.py:89-102 | the while loop, counted with the default model, leaves the messages and `num_context_tokens` that the trimming specification gives |
| ContextWindow.KeptDelete | app/openai_ops.py:93-95 | deleting a user, assistant or function message keeps every other message in order |
| ContextWindow.TrimPreservesKept | app/openai_ops.py:90-100 | trimming never deletes a system (or other non-removable) message, and the survivors keep their order |
| ContextWindow.TrimStops | app/openai_ops.py:90-102 | trimming ends either with a count within the budget that is reported, or over budget with nothing removable left |
| ContextWindow.TrimFitsWhenKeptFits | app/openai_ops.py:90-102 | if the non-removable messages alone fit, the trimmed conversation fits and its count is reported |
| ContextWindow.TrimIsLeastDrop | app/openai_ops.py:89-102 | trimming deletes exactly the k earliest removable messages, every shorter prefix of those deletions still overflowed, and an overflowing result reports the count before the last deletion (0 when nothing was deleted) |
| ContextWindow.DropEarliestLowersCount | app/openai_ops.py:90-97 | every deleted message lowers the count by at least three, so the loop makes progress |
| MarkdownConversion.SplitConcat | app/markdown_conversion.py:9 | the parts of the code-span split concatenate back to the input |
| MarkdownConversion.SplitCodeParts | app/markdown_conversion.py:9-15 | every captured part starts and ends with a backtick and has at least three characters |
| MarkdownConversion.SplitWithoutBacktick | app/markdown_conversion.py:9 | text without a backtick is one part |
| MarkdownConversion.InlineCodeAt | app/markdown_conversion.py:9 | `` `x` `` with at least one character and no backtick or newline in `x` is matched whole by the split pattern, whatever follows it |
| MarkdownConversion.FencedCodeAt | app/markdown_conversion.py:9 | ```` ```y``` ```` with a non-empty `y` that holds no ```` ``` ```` and does not end in a backtick is matched whole, whatever follows it |
| MarkdownConversion.SplitAroundCode | app/markdown_conversion.py:9 | text without a backtick followed by a code match and more text splits into that text, the match itself as one part, and the parts of the rest |
| MarkdownConversion.SplitAroundInlineCode | app/markdown_conversion.py:9 | an inline code span after text without a backtick is captured verbatim as the second part; the rest is split on its own |
| MarkdownConversion.SplitAroundFencedCode | app/markdown_conversion.py:9 | the same for a fenced code block |
| MarkdownConversion.SubWithoutDelimiter | app/markdown_conversion.py:17-22 | a rewrite leaves text without its delimiter unchanged |
| MarkdownConversion.SubRewritesToken | app/markdown_conversion.py:18-20 | a rewrite turns a delimited run of valid content into the new delimiters around the same content |
| MarkdownConversion.SubKeepsUnformatted | app/markdown_conversion.py:18-20 | a delimited run that is empty or has whitespace on an inner side is left unchanged |
| MarkdownConversion.SpacedInsertsSpaces | app/markdown_conversion.py:80-97 | `_add_space_around_matches` only inserts single spaces, and removing the inserted ones gives back its input |
| MarkdownConversion.SpacedPadsToken | app/markdown_conversion.py:80-97 | a delimited token between two other characters gets a space before it exactly when the character before is wide and not a space, and one after it exactly when the character after is |
| MarkdownConversion.SpacedWithoutWide | app/markdown_conversion.py:80-97 | with no wide or fullwidth character in the text, the spacing pass is the identity |
| MarkdownConversion.SpacedWithoutDelimiter | app/markdown_conversion.py:99-107 | a spacing pattern whose delimiter is absent leaves the text unchanged |
| MarkdownConversion.SpacedKeepsWholeToken | app/markdown_conversion.py:101-103 | a token that is the whole text gets no neighbours, hence no spaces |
| MarkdownConversion.SlackToMarkdown | app/markdown_conversion.py:7-24 | the loop over the parts computes the conversion: code parts verbatim, other parts through the three rewrites in order |
| MarkdownConversion.ConvertForMarkdown | app/markdown_conversion.py:16-22 | the loop over the three patterns applies them in order, each to the previous one's output |
| MarkdownConversion.AddSpaceAroundMatches | app/markdown_conversion.py:80-97 | the loop over the matches computes the spacing of the pattern |
| MarkdownConversion.MarkdownToSlack | app/markdown_conversion.py:29-109 | the loop over the parts computes the conversion: code parts verbatim, padded by a space next to wide non-space neighbours, other parts through the five rewrites and four spacing passes |
| MarkdownConversion.ConvertForSlack | app/markdown_conversion.py:57-107 | the rewrites and spacing passes applied to a non-code part |
| MarkdownConversion.SlackToMarkdownWithoutDelimiters | app/markdown_conversion.py:17-23 | text without `*`, `_` and `~` is unchanged by `slack_to_markdown` |
| MarkdownConversion.MarkdownToSlackWithoutDelimiters | app/markdown_conversion.py:29-109 | text without backticks, `*`, `_` and `~` is unchanged by `markdown_to_slack` |
| MarkdownConversion.SlackToMarkdownKeepsCode | app/markdown_conversion.py:9-23 | after text without a backtick, a code match is copied verbatim between the rewritten text and the conversion of the rest |
| MarkdownConversion.SlackToMarkdownKeepsInlineCode | app/markdown_conversion.py:9-23 | inline code is copied verbatim by `slack_to_markdown`, formatting characters inside it included |
| MarkdownConversion.SlackToMarkdownKeepsFencedCode | app/markdown_conversion.py:9-23 | a code block is copied verbatim by `slack_to_markdown` |
| MarkdownConversion.MarkdownToSlackFrom | app/markdown_conversion.py:34-55 | the loop only appends: what was emitted before a part stays the front of the result |
| MarkdownConversion.MarkdownToSlackKeepsCode | app/markdown_conversion.py:29-55 | after text without a backtick, `markdown_to_slack` emits the converted text, a space exactly when that text ends in a wide non-space character, then the code match verbatim |
| MarkdownConversion.MarkdownToSlackKeepsInlineCode | app/markdown_conversion.py:29-55 | the same for inline code |
| MarkdownConversion.MarkdownToSlackKeepsFencedCode | app/markdown_conversion.py:29-55 | the same for a code block |
| MarkdownConversion.MarkdownToSlackCodeInText | app/markdown_conversion.py:29-55 | a code match between two texts without backticks comes out verbatim, padded on each side exactly when the neighbouring character is wide and not a space, between the two converted texts |
| MarkdownConversion.MarkdownToSlackPadsCode | app/markdown_conversion.py:35-55 | between texts without backticks or delimiters, only the two conditional spaces are added around the code |
| MarkdownConversion.MarkdownToSlackSpacedCode | app/markdown_conversion.py:39-55 | code that already has a space on each side is not padded |
| MarkdownConversion.SlackToMarkdownInlineCodeTest | tests/markdown_conversion_test.py:86-87 | ``Inline code `*text*, _text_ and ~text~` shouldn't be changed.`` is unchanged by `slack_to_markdown` |
| MarkdownConversion.SlackToMarkdownBlockCodeTest | tests/markdown_conversion_test.py:82-83 | the same words with a code block are unchanged |
| MarkdownConversion.MarkdownToSlackInlineCodeTest | tests/markdown_conversion_test.py:26-27 | ``Inline code `**text**, __text__, *text*, _text_ and ~~text~~` shouldn't be changed.`` is unchanged by `markdown_to_slack`, for any width table |
| MarkdownConversion.MarkdownToSlackBlockCodeTest | tests/markdown_conversion_test.py:18-19 | the same words with a code block are unchanged |
| MarkdownConversion.SlackToMarkdownWords | app/markdown_conversion.py:17-22 | `*x*`, `_x_` and `~x~` become `**x**`, `*x*` and `~~x~~` |
| MarkdownConversion.SubSkipsShorterPair | app/markdown_conversion.py:59-68 | a rewrite for a longer delimiter leaves the shorter pair of the same character alone |
| MarkdownConversion.MarkdownToSlackBold | app/markdown_conversion.py:57-70 | `**x**` becomes `*x*` |
| MarkdownConversion.MarkdownToSlackItalic | app/markdown_conversion.py:62-65 | an isolated `*x*` becomes `_x_` |
| MarkdownConversion.MarkdownToSlackStrike | app/markdown_conversion.py:68 | `~~x~~` becomes `~x~` |
| MarkdownConversion.RoundTrips | app/markdown_conversion.py:7-109 | for plain words the two conversions are inverse on bold, italic and strike in both directions |
| ReplyFormatting.ReplaceAll | app/openai_ops.py:70 | `str.replace` leaves text without the pattern's first character unchanged |
| ReplyFormatting.ReplaceAllPiece | app/openai_ops.py:70 | `str.replace` works left to right: a matching piece is replaced, any other piece is copied |
| ReplyFormatting.Unescape | app/openai_ops.py:70 | text without `&` is not changed by the unescaping chain |
| ReplyFormatting.UnescapeEscape | app/openai_ops.py:68-70 | replacing `&lt;`, then `&gt;`, then `&amp;` undoes Slack's escaping of `&`, `<` and `>` |
| ReplyFormatting.FormatOpenAIMessageContent | app/openai_ops.py:62-76 | `None` stays `None`, and anything else stays present |
| ReplyFormatting.FormatOpenAIMessageContentOfEscaped | app/openai_ops.py:62-76 | a message as Slack delivers it comes out as written, and as its Markdown conversion when translation is on |
| ReplyFormatting.StripLeadingNewlines | app/openai_ops.py:473 | `^\n+` removes only newlines from the front, and what is left does not start with a newline |
| ReplyFormatting.StripNewlinesOf | app/openai_ops.py:473 | any number of leading newlines before text that does not start with one are removed |
| ReplyFormatting.StripMentionPrefix | app/openai_ops.py:475 | the mention rewrite only removes a prefix, and only from text starting `<@U` |
| ReplyFormatting.StripMentionOf | app/openai_ops.py:475 | `<@U…>` followed by the colon the lazy `.*?` first reaches is removed |
| ReplyFormatting.MentionPrefixRemoved | app/openai_ops.py:475 | `<@Uid>`, an optional space, a colon and an optional space are removed, leaving the rest |
| ReplyFormatting.FormatAssistantReplyWithoutFences | app/openai_ops.py:470-510 | a reply without backticks loses only its leading newlines and mention before any mrkdwn conversion |
| ReplyFormatting.CodeBlockOpening | app/openai_ops.py:477-502 | a tag pattern matches a block opened with its tag and ends after the newline |
| ReplyFormatting.FenceRewritesTag | app/openai_ops.py:477-502 | a tag pattern turns a block opened with (whitespace and) its tag into a bare fence with the same code |
| ReplyFormatting.BlockSkipsFence | app/openai_ops.py:477-502 | a tag pattern leaves a block with a different tag unchanged |
| ReplyFormatting.BlockSkipsShorterTag | app/openai_ops.py:477-502 | a pattern that needs a newline after a shorter tag leaves a block with a longer tag unchanged |
| ReplyFormatting.BareBlockKept | app/openai_ops.py:477-502 | a bare fence is matched by no tag pattern when the pattern cannot skip the newline |
| ReplyFormatting.FenceKeepsNewline | internals.py:144-145 | a pattern that does not consume the newline turns the tag into a fence and keeps the original newline |
| ReplyFormatting.ApplyFencesRewriteBlock | app/openai_ops.py:471-504 | when exactly one pattern of the list rewrites a text and no later one touches the result, the list's result is that rewrite |
| ReplyFormatting.PythonBlockSkips | app/openai_ops.py:477-501 | none of the 25 patterns before `[Pp]ython` touches a `python` block |
| ReplyFormatting.ReplyFencesOnPython | app/openai_ops.py:471-504 | the whole list turns a `python` block into a bare fence |
| ReplyFormatting.FormatAssistantReplyPython | app/openai_ops.py:470-510 | a reply of leading newlines and a `python` block comes out as the bare block |
| ReplyFormatting.TypeScriptTagKept | app/openai_ops.py:501 | the `[Ty]ype[Ss]cript` pattern does not match `typescript` |
| ReplyFormatting.ObjectiveCTagKept | app/openai_ops.py:484 | the `[Oo]objective[Cc]` pattern does not match `objectivec` |
| ReplyFormatting.RustTagRemoved | app/openai_ops.py:477 | ```` ```Rust ```` and ```` ```rust ````, after any whitespace, become a bare fence |
| StreamConsumer.Interims | app/openai_ops.py:232-252 | n flush requests are n interim updates |
| StreamConsumer.ReplyWriter.ReadChunks | app/openai_ops.py:218-258 | the chunk loop leaves the reply state the specification gives, raises on a late chunk or on missing choices outside Azure, changes no message, and requests one flush per counted twenty |
| StreamConsumer.ReplyWriter.ConsumeStream | app/openai_ops.py:207-316 | the conversation, the updates and the outcome are those of the frame's specification, including the function-call recursion |
| StreamConsumer.ReplyWriter.AnswerFunctionCall | app/openai_ops.py:267-303 | the function's answer is appended as a function message, the conversation is trimmed and the next stream is consumed with the remaining time |
| StreamConsumer.ScanIsAccumulate | app/openai_ops.py:218-258 | the loop's state is the fold of the update over the deltas it took in |
| StreamConsumer.AccumulateContent | app/openai_ops.py:229-231 | the reply's content is the concatenation of every content delta |
| StreamConsumer.AccumulateFlushes | app/openai_ops.py:230-252 | twenty times the flushes plus `word_count` grows by one per content delta, and `word_count` stays below twenty |
| StreamConsumer.FlushesFromStart | app/openai_ops.py:230-252 | from the start, the flushes are the number of content deltas divided by twenty, and `word_count` is the remainder |
| StreamConsumer.CallFrozenAfterContent | app/openai_ops.py:253-258 | once there is content, function-call deltas change nothing |
| StreamConsumer.CallWithoutContent | app/openai_ops.py:253-258 | while there is no content, the name and arguments are the concatenation of the function-call pieces |
| StreamConsumer.NoNamePieces | app/openai_ops.py:256-257 | without name pieces the function name stays as it was |
| StreamConsumer.OneFinalUpdate | app/openai_ops.py:267-316 | a frame that succeeds writes exactly one final update, and it is the last; a frame that fails writes none |
| StreamConsumer.OneFinalUpdateAfterCall | app/openai_ops.py:267-303 | the same for the function-call branch: the final update comes from the last frame only |
| StreamConsumer.ConsumePlainReply | app/openai_ops.py:207-316 | a stream without a function name succeeds with one more message, an assistant message holding all content, and its updates are the flushes followed by the formatted final text |
| StreamConsumer.ScanTimesOut | app/openai_ops.py:219-221 | a chunk later than the timeout raises TimeoutError, with only the earlier deltas taken in |
| Internals.ItemsTokensOfMessage | internals.py:110-116 | the item loop adds up to 4 plus the encoded role, content and name, less one for a name |
| Internals.CalculateNumTokens | internals.py:99-125 | for `gpt-3.5-turbo-0301` the count is 2 plus the sum of the message counts; any other model raises NotImplementedError |
| Internals.MessageTokensAtLeastThree | internals.py:112-116 | every message counts at least three tokens |
| Internals.SumMessageTokensAppend | internals.py:110-116 | the count is additive over concatenations |
| Internals.DeleteTokens | internals.py:35 | deleting a message lowers the count by its count |
| Internals.UnescapeContents | internals.py:23-26 | every message's content is unescaped in place, `&lt;` then `&gt;` then `&amp;`, and nothing else changes |
| Internals.UnescapeContentsOfEscaped | internals.py:21-26 | contents escaped by Slack come back as written |
| Internals.FirstUserIsFirst | internals.py:33-34 | the inner loop stops at the first user message; none exists exactly when there is no user message |
| Internals.FindUser | internals.py:33-34 | the inner `for` loop returns the first user index, or the length exactly when there is no user message |
| Internals.ChatRequest.CallOpenAI | internals.py:18-40 | the preprocessing leaves the unescaped conversation after trimming |
| Internals.ChatRequest.UnescapeAll | internals.py:23-26 | the for loop unescapes every content |
| Internals.ChatRequest.DropOldUserMessages | internals.py:31-40 | the while loop leaves the trimmed conversation |
| Internals.OthersDelete | internals.py:34-35 | deleting a user message keeps all other messages in order |
| Internals.LegacyTrimKeepsOthers | internals.py:31-40 | system and assistant messages are never removed and keep their order |
| Internals.LegacyTrimStops | internals.py:31-40 | trimming ends below `4096 - MAX_TOKENS`, or with no user message left |
| Internals.LegacyTrimDropsEarliest | internals.py:31-40 | trimming deletes the k earliest user messages, and every shorter prefix of those deletions was still at or above the threshold |
| Internals.FormatAssistantReply | internals.py:128-149 | the loop over the patterns computes the fold of the rewrites on the reply with its leading newlines stripped |
| Internals.LegacyReplyWithoutFences | internals.py:128-149 | a reply without backticks loses only its leading newlines |
| Internals.LegacyBareKept | internals.py:132-146 | no pattern touches a bare fence |
| Internals.LegacyPythonSkips | internals.py:132-145 | none of the patterns before `[Pp]ython` touches a `python` block |
| Internals.LegacyJavaSkips | internals.py:132-136 | none of the patterns before `[Jj]ava` touches a `java` block |
| Internals.LegacyJavaScriptSkips | internals.py:132-143 | none of the patterns before `[Jj]ava[Ss]cript` touches a `javascript` block |
| Internals.LegacyFencesOnPython | internals.py:130-148 | the list turns ```` ```python\n ```` into ```` ```\n ```` |
| Internals.LegacyFencesOnRuby | internals.py:130-148 | the list turns ```` ```ruby\n ```` into ```` ```\n ```` |
| Internals.LegacyFencesOnJava | internals.py:130-148 | the list turns ```` ```java\n ```` into ```` ```\n ```` |
| Internals.LegacyFencesOnJavaScript | internals.py:144 | the list turns ```` ```javascript ```` into ```` ```\n ```` and keeps the following newline |
| Internals.LegacyReplyPython | internals.py:128-149 | leading newlines and a `python` block give the bare block |
| Internals.LegacyReplyRuby | internals.py:128-149 | leading newlines and a `ruby` block give the bare block |
| Internals.LegacyReplyJava | internals.py:128-149 | leading newlines and a `java` block give the bare block |
| Internals.LegacyReplyJavaScript | internals.py:128-149 | leading newlines and a `javascript` block give a fence followed by two newlines |
| I18n.EnglishLocales | app/i18n.py:10-24 | the language is English exactly for `en-US` and `en-GB` |
| I18n.CacheKeyInjective | app/i18n.py:44 | for languages without a colon, equal cache keys mean the same language and text |
| I18n.LanguagesHaveNoColon | app/i18n.py:10-24 | no language of the table contains a colon, so keys of different entries never collide |
| I18n.NoKeyKeepsText | app/i18n.py:37-38 | without an API key, or with a blank one, the text is returned, with no request and no cache change |
| I18n.UntranslatedLocales | app/i18n.py:40-42 | an unknown or English locale returns the text, with no request and no cache change |
| I18n.RequestOnMiss | app/i18n.py:36-91 | a request is made exactly when the key is usable, the language is not English and the cache holds no text for the key; its answer, even `None`, is returned and stored under `lang:text` |
| I18n.TranslateTwice | app/i18n.py:44-46 | after a translation that produced text, translating the same text again returns it from the cache without a request |
| I18n.TranslationCache.Translate | app/i18n.py:33-91 | the result, the new cache and the request log are those the specification gives |

## Left out

- Threads of the stream consumer: an interim flush is logged as a request, because the text a racing thread writes is not determined. The `join` calls, `stream.close()` and the `finally` block are left out.
- The network: OpenAI and Slack calls, the streaming transport and `stream.close()` are not modelled. A stream is a finite sequence of chunks, and a `translate` request is the `Completion` parameter; its prompt and the Azure client choice (app/i18n.py:47-88) are not modelled.
- `tiktoken`, `unicodedata.east_asian_width` and the Python `re` engine are not modelled; they are parameters or hand-written scanners.
- `calculate_tokens_necessary_for_function_call`, which measures the function-call reserve with two API calls, is not modelled; the reserve is the `functionCallTokens` input.
- Dynamic dispatch (`import_module`, `getattr`, `json.loads` and the call) is the `dispatch` parameter. It returns the function's answer as a string or fails.
- Time is counted in whole seconds: each chunk carries its elapsed time, and so does the hand-off to the next stream. The `int(...)` rounding of the remaining timeout is not modelled.
- StreamConsumer.Consume: the streams later function calls open are a finite list given in advance. Running out of it ends the frame with `StreamsExhausted`, an outcome of the model only.
- StreamConsumer.Consume: a function message's content is the dispatcher's string; other JSON values are not modelled.
- The `function_call` dictionary of the source is shared between the reply and the frame (aliasing); the model copies its two strings into the assistant message instead.
- ReplyFormatting.FormatAssistantReplyPython: the whole-list rewrite of a tagged block is proved only for `python`. The per-pattern lemmas (FenceRewritesTag, BlockSkipsFence, BlockSkipsShorterTag) cover the others one pattern at a time.
- Internals.LegacyReplyPython: the whole-list rewrite is proved only for `python`, `ruby`, `java` and `javascript`.
- Python's `str.isspace` and `\s` are the fixed set `Chars.IsSpace`; Unicode categories beyond it are not modelled.
- Slack event handlers, the Slack wrappers, the UI construction, bootstrapping and configuration, images and redaction, and the sample tool modules are outside the modelled core.
