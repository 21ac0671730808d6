/** The foreground loop of `consume_openai_stream_to_write_reply` in
    app/openai_ops.py: the streamed deltas are gathered into the assistant
    reply, the work-in-progress message is flushed every twentieth content
    delta, and a suggested function call is run and answered by a new stream. */
module StreamConsumer {
  import opened Wrappers
  import opened Chars
  import opened ModelRegistry
  import opened TokenCounting
  import opened ContextWindow
  import opened ReplyFormatting
  import MarkdownConversion

  /** A `function_call` delta: either key may be missing. */
  datatype FunctionCallDelta = FunctionCallDelta(name: Option<string>, arguments: Option<string>)

  datatype Delta = Delta(content: Option<string>, functionCall: Option<FunctionCallDelta>)

  datatype Choice = Choice(finishReason: Option<string>, delta: Delta)

  /** A chunk and the whole seconds elapsed since the frame started when it arrived. */
  datatype Chunk = Chunk(at: int, choices: seq<Choice>)

  /** A stream, and the whole seconds elapsed in its frame when a function
      call is handed to the next stream. */
  datatype Stream = Stream(chunks: seq<Chunk>, handoffAt: int)

  /** What the frame writes to the work-in-progress message: a flush request of
      the half-built reply, whose text the racing thread decides, or the final text. */
  datatype Update = Interim | Final(text: string)

  /** The frame's variables: the reply content, the `function_call`
      accumulator and whether it was attached to the reply, `word_count`,
      and the number of flush threads started. */
  datatype Acc = Acc(content: string, name: string, arguments: string, attached: bool, wordCount: nat, flushes: nat)

  const Init := Acc("", "", "", false, 0, 0)

  /** `x or ""` on an optional string. */
  function OrEmpty(x: Option<string>): string {
    if x.Some? then x.value else ""
  }

  /** One delta: content is appended and counted, with a flush at twenty;
      a function-call delta counts only while the content is still empty. */
  function Step(acc: Acc, d: Delta): Acc {
    if d.content.Some? then
      var wordCount := acc.wordCount + 1;
      if wordCount >= 20 then acc.(content := acc.content + d.content.value, wordCount := 0, flushes := acc.flushes + 1)
      else acc.(content := acc.content + d.content.value, wordCount := wordCount)
    else if d.functionCall.Some? then
      if acc.content == "" then
        acc.(name := acc.name + OrEmpty(d.functionCall.value.name),
             arguments := acc.arguments + OrEmpty(d.functionCall.value.arguments),
             attached := true)
      else acc
    else acc
  }

  /** The deltas in order. */
  function Accumulate(ds: seq<Delta>, acc: Acc): Acc {
    if ds == [] then acc else Step(Accumulate(ds[..|ds| - 1], acc), ds[|ds| - 1])
  }

  /** The `for chunk in stream` loop, chunk by chunk, from the state `acc`:
      where it stops and the error it raises, if any. */
  function Scan(chunks: seq<Chunk>, timeout: int, azure: bool, acc: Acc): (Acc, Option<Error>)
    decreases |chunks|
  {
    if chunks == [] then (acc, None)
    else
      var c := chunks[0];
      if timeout < c.at then (acc, Some(TimeoutExceeded))
      else if c.choices == [] then
        if azure then Scan(chunks[1..], timeout, azure, acc) else (acc, Some(MissingChoices))
      else if c.choices[0].finishReason.Some? then (acc, None)
      else Scan(chunks[1..], timeout, azure, Step(acc, c.choices[0].delta))
  }

  /** The deltas the loop takes in before it stops, and the error it raises. */
  function Received(chunks: seq<Chunk>, timeout: int, azure: bool): (seq<Delta>, Option<Error>)
    decreases |chunks|
  {
    if chunks == [] then ([], None)
    else
      var c := chunks[0];
      if timeout < c.at then ([], Some(TimeoutExceeded))
      else if c.choices == [] then
        if azure then Received(chunks[1..], timeout, azure) else ([], Some(MissingChoices))
      else if c.choices[0].finishReason.Some? then ([], None)
      else
        var rest := Received(chunks[1..], timeout, azure);
        ([c.choices[0].delta] + rest.0, rest.1)
  }

  /** The assistant reply as it stands in the conversation. */
  function AssistantMessage(acc: Acc): Message {
    Message("assistant", Str(acc.content), None,
            if acc.attached then Some(FunctionCall(acc.name, acc.arguments)) else None)
  }

  function FunctionMessage(name: string, response: string): Message {
    Message("function", Str(response), Some(name), None)
  }

  /** `n` flush requests. */
  function Interims(n: nat): (us: seq<Update>)
    ensures |us| == n && forall k :: 0 <= k < n ==> us[k] == Interim
  {
    if n == 0 then [] else Interims(n - 1) + [Interim]
  }

  /** The configuration a frame reads: the Azure quirk, the reply options,
      the model and function-call reserve for trimming, the tokenizer
      table, and the function-call module (`import_module`, `getattr`,
      `json.loads` and the call, which may fail). */
  datatype Env = Env(
    azure: bool,
    translateMarkdown: bool,
    wide: WidthTable,
    model: string,
    functionCallTokens: Option<int>,
    encodingFor: EncodingTable,
    dispatch: (string, string) -> Result<string, Error>)

  /** What a call leaves behind: its outcome, the conversation and the
      updates written to the work-in-progress message. */
  datatype Outcome = Outcome(result: Result<(), Error>, messages: seq<Message>, updates: seq<Update>)

  /** `consume_openai_stream_to_write_reply` on `stream`, with `rest` the
      streams later function calls open, in order. */
  function Consume(stream: Stream, rest: seq<Stream>, messages: seq<Message>, timeout: int, env: Env): Outcome
    decreases |rest|, 1
  {
    var (acc, err) := Scan(stream.chunks, timeout, env.azure, Init);
    var ms := messages + [AssistantMessage(acc)];
    var flushes := Interims(acc.flushes);
    if err.Some? then Outcome(Failure(err.value), ms, flushes)
    else if acc.name == "" then
      Outcome(Success(()), ms, flushes + [Final(FormatAssistantReply(acc.content, env.translateMarkdown, env.wide))])
    else
      var o := AnswerCall(acc.name, acc.arguments, ms, rest, timeout - stream.handoffAt, env);
      Outcome(o.result, o.messages, flushes + o.updates)
  }

  /** The function-call branch: the function's answer is appended, the
      conversation trimmed, and the next stream consumed with what is left
      of the timeout. */
  function AnswerCall(name: string, arguments: string, messages: seq<Message>, rest: seq<Stream>, timeout: int, env: Env): Outcome
    decreases |rest|, 0
  {
    match env.dispatch(name, arguments)
    case Failure(e) => Outcome(Failure(e), messages, [])
    case Success(response) =>
      var withResponse := messages + [FunctionMessage(name, response)];
      var budget := Budget(env.model, env.functionCallTokens);
      if budget.Failure? then Outcome(Failure(budget.error), withResponse, [])
      else
        var trimmed := Trim(withResponse, budget.value, env.encodingFor(DefaultTokenCountModel), 0).0;
        if rest == [] then Outcome(Failure(StreamsExhausted), trimmed, [])
        else Consume(rest[0], rest[1..], trimmed, timeout, env)
  }

  lemma UpdatesAssoc(a: seq<Update>, b: seq<Update>, c: seq<Update>)
    ensures (a + b) + c == a + (b + c)
  {
  }

  /** The Slack reply being written: the conversation it is answering and the
      updates sent to its work-in-progress message. */
  class ReplyWriter {
    var messages: seq<Message>
    var updates: seq<Update>

    constructor (messages: seq<Message>)
      ensures this.messages == messages && updates == []
    {
      this.messages := messages;
      updates := [];
    }

    /** `consume_openai_stream_to_write_reply`. */
    method ConsumeStream(stream: Stream, rest: seq<Stream>, timeout: int, env: Env) returns (r: Result<(), Error>)
      modifies this
      ensures var o := Consume(stream, rest, old(messages), timeout, env);
        r == o.result && messages == o.messages && updates == old(updates) + o.updates
      decreases |rest|, 1
    {
      var acc, err := ReadChunks(stream.chunks, timeout, env.azure);
      messages := messages + [AssistantMessage(acc)];
      if err.Some? {
        return Failure(err.value);
      }
      if acc.name == "" {
        var text := FormatAssistantReply(acc.content, env.translateMarkdown, env.wide);
        updates := updates + [Final(text)];
        UpdatesAssoc(old(updates), Interims(acc.flushes), [Final(text)]);
        return Success(());
      }
      r := AnswerFunctionCall(acc.name, acc.arguments, rest, timeout - stream.handoffAt, env);
      ghost var o := AnswerCall(acc.name, acc.arguments, old(messages) + [AssistantMessage(acc)], rest, timeout - stream.handoffAt, env);
      UpdatesAssoc(old(updates), Interims(acc.flushes), o.updates);
    }

    /** The function-call branch of `consume_openai_stream_to_write_reply`. */
    method AnswerFunctionCall(name: string, arguments: string, rest: seq<Stream>, timeout: int, env: Env)
      returns (r: Result<(), Error>)
      modifies this
      ensures var o := AnswerCall(name, arguments, old(messages), rest, timeout, env);
        r == o.result && messages == o.messages && updates == old(updates) + o.updates
      decreases |rest|, 0
    {
      var response := env.dispatch(name, arguments);
      if response.Failure? {
        return Failure(response.error);
      }
      messages := messages + [FunctionMessage(name, response.value)];
      var conversation := new Conversation(messages);
      var window := conversation.WithinContextWindow(env.model, env.functionCallTokens, env.encodingFor);
      messages := conversation.messages;
      if window.Failure? {
        return Failure(window.error);
      }
      if rest == [] {
        return Failure(StreamsExhausted);
      }
      r := ConsumeStream(rest[0], rest[1..], timeout, env);
    }

    /** The `for chunk in stream` loop: the reply and the function call come
        back, one flush request is logged per twenty content deltas. */
    method ReadChunks(chunks: seq<Chunk>, timeout: int, azure: bool) returns (acc: Acc, err: Option<Error>)
      modifies this
      ensures (acc, err) == Scan(chunks, timeout, azure, Init)
      ensures messages == old(messages) && updates == old(updates) + Interims(acc.flushes)
    {
      var content, name, arguments, attached := "", "", "", false;
      var wordCount, flushes := 0, 0;
      err := None;
      var i := 0;
      while i < |chunks|
        invariant 0 <= i <= |chunks|
        invariant Scan(chunks, timeout, azure, Init)
               == Scan(chunks[i..], timeout, azure, Acc(content, name, arguments, attached, wordCount, flushes))
        invariant messages == old(messages) && updates == old(updates) + Interims(flushes)
      {
        var c := chunks[i];
        if timeout < c.at {
          err := Some(TimeoutExceeded);
          break;
        }
        if azure && c.choices == [] {
          i := i + 1;
          continue;
        }
        if c.choices == [] {
          err := Some(MissingChoices);
          break;
        }
        var item := c.choices[0];
        if item.finishReason.Some? {
          break;
        }
        var delta := item.delta;
        if delta.content.Some? {
          wordCount := wordCount + 1;
          content := content + delta.content.value;
          if wordCount >= 20 {
            updates := updates + [Interim];
            flushes := flushes + 1;
            wordCount := 0;
          }
        } else if delta.functionCall.Some? {
          if content == "" {
            name := name + OrEmpty(delta.functionCall.value.name);
            arguments := arguments + OrEmpty(delta.functionCall.value.arguments);
            attached := true;
          }
        }
        i := i + 1;
      }
      acc := Acc(content, name, arguments, attached, wordCount, flushes);
    }
  }

  /*** What the loop gathers ***/

  /** The text of the content deltas, in order. */
  function ContentText(ds: seq<Delta>): string {
    if ds == [] then ""
    else ContentText(ds[..|ds| - 1]) + OrEmpty(ds[|ds| - 1].content)
  }

  /** The number of content deltas, empty ones included. */
  function ContentCount(ds: seq<Delta>): nat {
    if ds == [] then 0
    else ContentCount(ds[..|ds| - 1]) + (if ds[|ds| - 1].content.Some? then 1 else 0)
  }

  /** The function-call deltas: those that carry no content. */
  function IsCallDelta(d: Delta): bool {
    d.content.None? && d.functionCall.Some?
  }

  /** The `name` pieces of the function-call deltas, in order. */
  function CallNames(ds: seq<Delta>): string {
    if ds == [] then ""
    else CallNames(ds[..|ds| - 1]) + (if IsCallDelta(ds[|ds| - 1]) then OrEmpty(ds[|ds| - 1].functionCall.value.name) else "")
  }

  /** The `arguments` pieces of the function-call deltas, in order. */
  function CallArguments(ds: seq<Delta>): string {
    if ds == [] then ""
    else CallArguments(ds[..|ds| - 1]) + (if IsCallDelta(ds[|ds| - 1]) then OrEmpty(ds[|ds| - 1].functionCall.value.arguments) else "")
  }

  /** The loop applied chunk by chunk is the fold over the deltas it takes in. */
  lemma {:induction false} ScanIsAccumulate(chunks: seq<Chunk>, timeout: int, azure: bool, acc: Acc)
    ensures var (ds, err) := Received(chunks, timeout, azure);
      Scan(chunks, timeout, azure, acc) == (Accumulate(ds, acc), err)
    decreases |chunks|
  {
    if chunks != [] {
      var c := chunks[0];
      if timeout >= c.at && c.choices != [] && c.choices[0].finishReason.None? {
        var d := c.choices[0].delta;
        ScanIsAccumulate(chunks[1..], timeout, azure, Step(acc, d));
        AccumulateCons(d, Received(chunks[1..], timeout, azure).0, acc);
      } else if timeout >= c.at && c.choices == [] && azure {
        ScanIsAccumulate(chunks[1..], timeout, azure, acc);
      }
    }
  }

  lemma {:induction false} AccumulateCons(d: Delta, ds: seq<Delta>, acc: Acc)
    ensures Accumulate([d] + ds, acc) == Accumulate(ds, Step(acc, d))
    decreases |ds|
  {
    if ds == [] {
      assert [d] + ds == [d];
      assert [d][..0] == [];
    } else {
      assert ([d] + ds)[..|ds|] == [d] + ds[..|ds| - 1];
      AccumulateCons(d, ds[..|ds| - 1], acc);
    }
  }

  /** The reply content is the concatenation of the content deltas. */
  lemma {:induction false} AccumulateContent(ds: seq<Delta>, acc: Acc)
    ensures Accumulate(ds, acc).content == acc.content + ContentText(ds)
    decreases |ds|
  {
    if ds != [] {
      AccumulateContent(ds[..|ds| - 1], acc);
      MarkdownConversion.AppendAssoc(acc.content, ContentText(ds[..|ds| - 1]), OrEmpty(ds[|ds| - 1].content));
    }
  }

  /** A flush thread is started at every twentieth content delta, and
      `word_count` holds the content deltas since the last one. */
  lemma {:induction false} AccumulateFlushes(ds: seq<Delta>, acc: Acc)
    requires acc.wordCount < 20
    ensures var a := Accumulate(ds, acc);
      && a.wordCount < 20
      && 20 * a.flushes + a.wordCount == 20 * acc.flushes + acc.wordCount + ContentCount(ds)
    decreases |ds|
  {
    if ds != [] {
      AccumulateFlushes(ds[..|ds| - 1], acc);
    }
  }

  /** From an empty start, the number of flushes is the number of content
      deltas divided by twenty. */
  lemma FlushesFromStart(ds: seq<Delta>)
    ensures Accumulate(ds, Init).flushes == ContentCount(ds) / 20
    ensures Accumulate(ds, Init).wordCount == ContentCount(ds) % 20
  {
    AccumulateFlushes(ds, Init);
  }

  /** Content once received is never lost, and from then on function-call
      deltas are ignored. */
  lemma {:induction false} CallFrozenAfterContent(ds: seq<Delta>, acc: Acc)
    requires acc.content != ""
    ensures var a := Accumulate(ds, acc);
      && a.content != ""
      && a.name == acc.name && a.arguments == acc.arguments && a.attached == acc.attached
    decreases |ds|
  {
    if ds != [] {
      CallFrozenAfterContent(ds[..|ds| - 1], acc);
    }
  }

  /** While no content has arrived, the function call is the concatenation of
      the function-call deltas' pieces. */
  lemma {:induction false} CallWithoutContent(ds: seq<Delta>, acc: Acc)
    requires acc.content == "" && ContentText(ds) == ""
    ensures var a := Accumulate(ds, acc);
      a.name == acc.name + CallNames(ds) && a.arguments == acc.arguments + CallArguments(ds)
    decreases |ds|
  {
    if ds != [] {
      var init := ds[..|ds| - 1];
      assert ContentText(init) == "";
      AccumulateContent(init, acc);
      CallWithoutContent(init, acc);
      var d := ds[|ds| - 1];
      MarkdownConversion.AppendAssoc(acc.name, CallNames(init), if IsCallDelta(d) then OrEmpty(d.functionCall.value.name) else "");
      MarkdownConversion.AppendAssoc(acc.arguments, CallArguments(init), if IsCallDelta(d) then OrEmpty(d.functionCall.value.arguments) else "");
    }
  }

  /*** What a call leaves behind ***/

  /** The number of final updates. */
  function FinalCount(us: seq<Update>): nat {
    if us == [] then 0 else FinalCount(us[..|us| - 1]) + (if us[|us| - 1].Final? then 1 else 0)
  }

  lemma {:induction false} FinalCountAppend(a: seq<Update>, b: seq<Update>)
    ensures FinalCount(a + b) == FinalCount(a) + FinalCount(b)
    decreases |b|
  {
    if b == [] {
      assert a + b == a;
    } else {
      assert (a + b)[..|a + b| - 1] == a + b[..|b| - 1];
      FinalCountAppend(a, b[..|b| - 1]);
    }
  }

  lemma {:induction false} InterimsNotFinal(n: nat)
    ensures FinalCount(Interims(n)) == 0
  {
    if n > 0 {
      InterimsNotFinal(n - 1);
      FinalCountAppend(Interims(n - 1), [Interim]);
      assert [Interim][..0] == [];
    }
  }

  /** Flush requests before `us` add no final update and leave its last one last. */
  lemma FlushesBefore(n: nat, us: seq<Update>)
    ensures FinalCount(Interims(n) + us) == FinalCount(us)
    ensures us != [] ==> (Interims(n) + us)[|Interims(n) + us| - 1] == us[|us| - 1]
  {
    InterimsNotFinal(n);
    FinalCountAppend(Interims(n), us);
  }

  /** The updates of a call with outcome `r`: one final text, as the last
      update, when it succeeds, and none when it fails. */
  predicate FinalsRight(r: Result<(), Error>, us: seq<Update>) {
    && (r.Success? ==> |us| > 0 && us[|us| - 1].Final? && FinalCount(us) == 1)
    && (r.Failure? ==> FinalCount(us) == 0)
  }

  lemma FlushesKeepFinals(n: nat, r: Result<(), Error>, us: seq<Update>)
    requires FinalsRight(r, us)
    ensures FinalsRight(r, Interims(n) + us)
  {
    FlushesBefore(n, us);
  }

  /** A loop that raises leaves its flush requests only. */
  lemma ConsumeRaises(stream: Stream, rest: seq<Stream>, messages: seq<Message>, timeout: int, env: Env)
    requires Scan(stream.chunks, timeout, env.azure, Init).1.Some?
    ensures var o := Consume(stream, rest, messages, timeout, env);
      var acc := Scan(stream.chunks, timeout, env.azure, Init).0;
      && o.result == Failure(Scan(stream.chunks, timeout, env.azure, Init).1.value)
      && o.messages == messages + [AssistantMessage(acc)]
      && o.updates == Interims(acc.flushes) + []
  {
  }

  /** A loop that ends without a function name adds the final text after its flush requests. */
  lemma ConsumeAnswers(stream: Stream, rest: seq<Stream>, messages: seq<Message>, timeout: int, env: Env)
    requires Scan(stream.chunks, timeout, env.azure, Init).1.None?
    requires Scan(stream.chunks, timeout, env.azure, Init).0.name == ""
    ensures var acc := Scan(stream.chunks, timeout, env.azure, Init).0;
      var o := Consume(stream, rest, messages, timeout, env);
      && o.result == Success(())
      && o.messages == messages + [AssistantMessage(acc)]
      && o.updates == Interims(acc.flushes) + [Final(FormatAssistantReply(acc.content, env.translateMarkdown, env.wide))]
  {
  }

  /** A loop that ends with a function name hands over to the function-call branch. */
  lemma ConsumeCalls(stream: Stream, rest: seq<Stream>, messages: seq<Message>, timeout: int, env: Env)
    requires Scan(stream.chunks, timeout, env.azure, Init).1.None?
    requires Scan(stream.chunks, timeout, env.azure, Init).0.name != ""
    ensures var acc := Scan(stream.chunks, timeout, env.azure, Init).0;
      var o := Consume(stream, rest, messages, timeout, env);
      var c := AnswerCall(acc.name, acc.arguments, messages + [AssistantMessage(acc)], rest, timeout - stream.handoffAt, env);
      o.result == c.result && o.messages == c.messages && o.updates == Interims(acc.flushes) + c.updates
  {
  }

  /** A call that succeeds writes exactly one final text, as its last
      update; a call that fails writes none. */
  lemma {:induction false} OneFinalUpdate(stream: Stream, rest: seq<Stream>, messages: seq<Message>, timeout: int, env: Env)
    ensures var o := Consume(stream, rest, messages, timeout, env);
      && (o.result.Success? ==> |o.updates| > 0 && o.updates[|o.updates| - 1].Final? && FinalCount(o.updates) == 1)
      && (o.result.Failure? ==> FinalCount(o.updates) == 0)
    decreases |rest|, 1
  {
    var (acc, err) := Scan(stream.chunks, timeout, env.azure, Init);
    var o := Consume(stream, rest, messages, timeout, env);
    if err.Some? {
      ConsumeRaises(stream, rest, messages, timeout, env);
      FlushesKeepFinals(acc.flushes, o.result, []);
    } else if acc.name == "" {
      ConsumeAnswers(stream, rest, messages, timeout, env);
      var fin := [Final(FormatAssistantReply(acc.content, env.translateMarkdown, env.wide))];
      assert fin[..0] == [];
      FlushesKeepFinals(acc.flushes, o.result, fin);
    } else {
      var ms := messages + [AssistantMessage(acc)];
      ConsumeCalls(stream, rest, messages, timeout, env);
      OneFinalUpdateAfterCall(acc.name, acc.arguments, ms, rest, timeout - stream.handoffAt, env);
      FlushesKeepFinals(acc.flushes, o.result, AnswerCall(acc.name, acc.arguments, ms, rest, timeout - stream.handoffAt, env).updates);
    }
    assert FinalsRight(o.result, o.updates);
  }

  lemma {:induction false} OneFinalUpdateAfterCall(name: string, arguments: string, messages: seq<Message>, rest: seq<Stream>, timeout: int, env: Env)
    ensures var o := AnswerCall(name, arguments, messages, rest, timeout, env);
      && (o.result.Success? ==> |o.updates| > 0 && o.updates[|o.updates| - 1].Final? && FinalCount(o.updates) == 1)
      && (o.result.Failure? ==> FinalCount(o.updates) == 0)
    decreases |rest|, 0
  {
    match env.dispatch(name, arguments)
    case Failure(_) =>
    case Success(response) =>
      var withResponse := messages + [FunctionMessage(name, response)];
      var budget := Budget(env.model, env.functionCallTokens);
      if budget.Success? && rest != [] {
        var trimmed := Trim(withResponse, budget.value, env.encodingFor(DefaultTokenCountModel), 0).0;
        OneFinalUpdate(rest[0], rest[1..], trimmed, timeout, env);
      }
  }

  /** Without `name` pieces the gathered function name stays as it was. */
  lemma {:induction false} NoNamePieces(ds: seq<Delta>, acc: Acc)
    requires CallNames(ds) == ""
    ensures Accumulate(ds, acc).name == acc.name
    decreases |ds|
  {
    if ds != [] {
      NoNamePieces(ds[..|ds| - 1], acc);
    }
  }

  /** A stream that ends cleanly without a function name leaves the reply,
      holding the concatenated content, as the last message, one flush per
      twenty content deltas, and the formatted reply as the final text. */
  lemma ConsumePlainReply(stream: Stream, rest: seq<Stream>, messages: seq<Message>, timeout: int, env: Env)
    requires Received(stream.chunks, timeout, env.azure).1.None?
    requires CallNames(Received(stream.chunks, timeout, env.azure).0) == ""
    ensures var ds := Received(stream.chunks, timeout, env.azure).0;
      var text := ContentText(ds);
      var o := Consume(stream, rest, messages, timeout, env);
      && o.result == Success(())
      && |o.messages| == |messages| + 1 && o.messages[..|messages|] == messages
      && o.messages[|messages|].role == "assistant" && o.messages[|messages|].content == Str(text)
      && o.updates == Interims(ContentCount(ds) / 20) + [Final(FormatAssistantReply(text, env.translateMarkdown, env.wide))]
  {
    var ds := Received(stream.chunks, timeout, env.azure).0;
    var acc := Accumulate(ds, Init);
    ScanIsAccumulate(stream.chunks, timeout, env.azure, Init);
    AccumulateContent(ds, Init);
    assert acc.content == ContentText(ds);
    FlushesFromStart(ds);
    NoNamePieces(ds, Init);
    ConsumeAnswers(stream, rest, messages, timeout, env);
    assert (messages + [AssistantMessage(acc)])[..|messages|] == messages;
  }

  /** A chunk that arrives after the timeout ends the call with
      `TimeoutError`, the reply holding what had arrived before it. */
  lemma {:induction false} ScanTimesOut(chunks: seq<Chunk>, timeout: int, azure: bool, i: nat)
    requires i < |chunks| && timeout < chunks[i].at
    requires forall j :: 0 <= j < i ==> chunks[j].at <= timeout && chunks[j].choices != [] && chunks[j].choices[0].finishReason.None?
    ensures Received(chunks, timeout, azure).1 == Some(TimeoutExceeded)
    ensures |Received(chunks, timeout, azure).0| == i
    decreases i
  {
    if i > 0 {
      ScanTimesOut(chunks[1..], timeout, azure, i - 1);
    }
  }
}
