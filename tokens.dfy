/** Token counting and context-window sizes of app/openai_ops.py:
    `encode_and_count_tokens`, `calculate_num_tokens` and `context_length`. */
module TokenCounting {
  import opened Wrappers
  import opened ModelRegistry

  /** The length of `tiktoken`'s encoding of a string. */
  type Tokenizer = string -> nat

  /** `tiktoken.encoding_for_model(model)`, with its `cl100k_base` fallback. */
  type EncodingTable = string -> Tokenizer

  /** A JSON-like value held in a message: a string, a list, a dictionary
      (items in insertion order) or anything else (`None`, numbers, ...). */
  datatype Value = Str(text: string) | List(items: seq<Value>) | Dict(fields: seq<Field>) | Scalar
  datatype Field = Field(key: string, value: Value)

  datatype FunctionCall = FunctionCall(name: string, arguments: string)

  /** A chat message: the dictionary with keys `role`, `content` and, when
      present, `name` and `function_call`. */
  datatype Message = Message(role: string, content: Value, name: Option<string>, functionCall: Option<FunctionCall>)

  /** `message.items()`: the message seen as the dictionary Python iterates over. */
  function Entries(m: Message): (es: seq<Field>)
    ensures |es| >= 2 && es[0] == Field("role", Str(m.role)) && es[1] == Field("content", m.content)
  {
    [Field("role", Str(m.role)), Field("content", m.content)]
    + (if m.name.Some? then [Field("name", Str(m.name.value))] else [])
    + (if m.functionCall.Some? then [Field("function_call", CallValue(m.functionCall.value))] else [])
  }

  /** `encode_and_count_tokens`: strings cost their encoded length, lists and
      dictionaries the sum of their members, `image_url` entries and every
      other kind of value nothing. */
  function EncodeAndCountTokens(v: Value, enc: Tokenizer): nat
    decreases v
  {
    match v
    case Str(s) => enc(s)
    case List(items) => SumItems(items, enc)
    case Dict(fields) => SumFields(fields, enc)
    case Scalar => 0
  }

  function SumItems(items: seq<Value>, enc: Tokenizer): nat
    decreases items
  {
    if items == [] then 0 else EncodeAndCountTokens(items[0], enc) + SumItems(items[1..], enc)
  }

  function SumFields(fields: seq<Field>, enc: Tokenizer): nat
    decreases fields
  {
    if fields == [] then 0
    else (if fields[0].key == "image_url" then 0 else EncodeAndCountTokens(fields[0].value, enc))
         + SumFields(fields[1..], enc)
  }

  /** `value[key]` of a dictionary whose entry is a string ("" when absent). */
  function TextAt(v: Value, key: string): string {
    if v.Dict? then TextIn(v.fields, key) else ""
  }

  function TextIn(fields: seq<Field>, key: string): string {
    if fields == [] then ""
    else if fields[0].key == key && fields[0].value.Str? then fields[0].value.text
    else TextIn(fields[1..], key)
  }

  /** What one `key: value` item adds to the count inside the loop of `calculate_num_tokens`. */
  function FieldCost(f: Field, enc: Tokenizer, perName: int): int {
    (if f.key == "function_call" then 1 + enc(TextAt(f.value, "name")) + enc(TextAt(f.value, "arguments"))
     else EncodeAndCountTokens(f.value, enc))
    + (if f.key == "name" then perName else 0)
  }

  function SumFieldCosts(fs: seq<Field>, enc: Tokenizer, perName: int): int {
    if fs == [] then 0 else SumFieldCosts(fs[..|fs| - 1], enc, perName) + FieldCost(fs[|fs| - 1], enc, perName)
  }

  /** The cost of one message, stated field by field: the per-message
      overhead, the encoded role and content, the name with its overhead, and
      one token plus the encoded name and arguments of a function call. */
  function MessageCost(m: Message, enc: Tokenizer, overheads: (int, int)): int {
    overheads.0 + enc(m.role) + EncodeAndCountTokens(m.content, enc)
    + (if m.name.Some? then enc(m.name.value) + overheads.1 else 0)
    + (if m.functionCall.Some? then 1 + enc(m.functionCall.value.name) + enc(m.functionCall.value.arguments) else 0)
  }

  function SumCosts(ms: seq<Message>, enc: Tokenizer, overheads: (int, int)): int {
    if ms == [] then 0 else SumCosts(ms[..|ms| - 1], enc, overheads) + MessageCost(ms[|ms| - 1], enc, overheads)
  }

  /** The count `calculate_num_tokens` returns for known overheads: every
      message's cost plus the 3 tokens that prime the reply. */
  function NumTokens(ms: seq<Message>, enc: Tokenizer, overheads: (int, int)): int {
    3 + SumCosts(ms, enc, overheads)
  }

  lemma SumFieldCostsAppend(fs: seq<Field>, f: Field, enc: Tokenizer, perName: int)
    ensures SumFieldCosts(fs + [f], enc, perName) == SumFieldCosts(fs, enc, perName) + FieldCost(f, enc, perName)
  {
    assert (fs + [f])[..|fs|] == fs;
  }

  /** Iterating over the dictionary items adds up to the field-by-field cost. */
  lemma EntriesCost(m: Message, enc: Tokenizer, overheads: (int, int))
    ensures overheads.0 + SumFieldCosts(Entries(m), enc, overheads.1) == MessageCost(m, enc, overheads)
  {
    var base := [Field("role", Str(m.role)), Field("content", m.content)];
    var withName := base + (if m.name.Some? then [Field("name", Str(m.name.value))] else []);
    BaseCost(m, enc, overheads.1);
    NameCost(m, base, enc, overheads.1);
    CallCost(m, withName, enc, overheads.1);
  }

  lemma BaseCost(m: Message, enc: Tokenizer, perName: int)
    ensures SumFieldCosts([Field("role", Str(m.role)), Field("content", m.content)], enc, perName)
         == enc(m.role) + EncodeAndCountTokens(m.content, enc)
  {
    var role, content := Field("role", Str(m.role)), Field("content", m.content);
    SumFieldCostsAppend([], role, enc, perName);
    SumFieldCostsAppend([role], content, enc, perName);
    assert [] + [role] == [role];
    assert [role] + [content] == [role, content];
  }

  /** The `name` item costs its encoding and the per-name overhead. */
  lemma NameCost(m: Message, base: seq<Field>, enc: Tokenizer, perName: int)
    ensures SumFieldCosts(base + (if m.name.Some? then [Field("name", Str(m.name.value))] else []), enc, perName)
         == SumFieldCosts(base, enc, perName) + (if m.name.Some? then enc(m.name.value) + perName else 0)
  {
    if m.name.Some? {
      SumFieldCostsAppend(base, Field("name", Str(m.name.value)), enc, perName);
    } else {
      assert base + [] == base;
    }
  }

  /** The `function_call` item costs one token and its encoded name and arguments. */
  lemma CallCost(m: Message, withName: seq<Field>, enc: Tokenizer, perName: int)
    ensures SumFieldCosts(withName + (if m.functionCall.Some? then [Field("function_call", CallValue(m.functionCall.value))] else []), enc, perName)
         == SumFieldCosts(withName, enc, perName)
            + (if m.functionCall.Some? then 1 + enc(m.functionCall.value.name) + enc(m.functionCall.value.arguments) else 0)
  {
    if m.functionCall.Some? {
      var fc := m.functionCall.value;
      CallValueText(fc);
      SumFieldCostsAppend(withName, Field("function_call", CallValue(fc)), enc, perName);
    } else {
      assert withName + [] == withName;
    }
  }

  /** The dictionary a `function_call` item holds. */
  function CallValue(fc: FunctionCall): Value {
    Dict([Field("name", Str(fc.name)), Field("arguments", Str(fc.arguments))])
  }

  lemma CallValueText(fc: FunctionCall)
    ensures TextAt(CallValue(fc), "name") == fc.name
    ensures TextAt(CallValue(fc), "arguments") == fc.arguments
  {
    var v := CallValue(fc);
    assert v.fields[1..] == [Field("arguments", Str(fc.arguments))];
    assert TextIn(v.fields[1..], "arguments") == fc.arguments;
  }

  /** `calculate_num_tokens`: a model without overheads is retried once through
      its alias, and otherwise NotImplementedError is raised. */
  method CalculateNumTokens(messages: seq<Message>, model: string, encodingFor: EncodingTable)
    returns (r: Result<int, Error>)
    ensures model in ModelTokens ==>
      r == Success(NumTokens(messages, encodingFor(model), ModelTokens[model]))
    ensures model !in ModelTokens && model in ModelFallbacks ==>
      r == Success(NumTokens(messages, encodingFor(ModelFallbacks[model]), ModelTokens[ModelFallbacks[model]]))
    ensures model !in ModelTokens && model !in ModelFallbacks ==> r == Failure(NotImplemented(model))
    decreases if model in ModelTokens then 0 else 1
  {
    var enc := encodingFor(model);
    if model !in ModelTokens {
      if model in ModelFallbacks {
        ShippedAliasesAreDated();
        r := CalculateNumTokens(messages, ModelFallbacks[model], encodingFor);
        return;
      }
      return Failure(NotImplemented(model));
    }
    var numTokens := CountTokens(messages, enc, ModelTokens[model]);
    r := Success(numTokens);
  }

  /** The counting loops of `calculate_num_tokens`, once the overheads are known. */
  method CountTokens(messages: seq<Message>, enc: Tokenizer, overheads: (int, int)) returns (numTokens: int)
    ensures numTokens == NumTokens(messages, enc, overheads)
  {
    var perMessage, perName := overheads.0, overheads.1;
    numTokens := 0;
    for i := 0 to |messages|
      invariant numTokens == SumCosts(messages[..i], enc, overheads)
    {
      numTokens := numTokens + perMessage;
      var items := Entries(messages[i]);
      for j := 0 to |items|
        invariant numTokens == SumCosts(messages[..i], enc, overheads) + perMessage + SumFieldCosts(items[..j], enc, perName)
      {
        var key, value := items[j].key, items[j].value;
        if key == "function_call" {
          numTokens := numTokens + 1 + enc(TextAt(value, "name")) + enc(TextAt(value, "arguments"));
        } else {
          numTokens := numTokens + EncodeAndCountTokens(value, enc);
        }
        if key == "name" {
          numTokens := numTokens + perName;
        }
        FieldsPrefix(items, j, enc, perName);
      }
      assert items[..|items|] == items;
      EntriesCost(messages[i], enc, overheads);
      MessagesPrefix(messages, i, enc, overheads);
    }
    assert messages[..|messages|] == messages;
    numTokens := numTokens + 3;
  }

  lemma FieldsPrefix(items: seq<Field>, j: nat, enc: Tokenizer, perName: int)
    requires j < |items|
    ensures SumFieldCosts(items[..j + 1], enc, perName) == SumFieldCosts(items[..j], enc, perName) + FieldCost(items[j], enc, perName)
  {
    assert items[..j + 1] == items[..j] + [items[j]];
    SumFieldCostsAppend(items[..j], items[j], enc, perName);
  }

  lemma MessagesPrefix(messages: seq<Message>, i: nat, enc: Tokenizer, overheads: (int, int))
    requires i < |messages|
    ensures SumCosts(messages[..i + 1], enc, overheads) == SumCosts(messages[..i], enc, overheads) + MessageCost(messages[i], enc, overheads)
  {
    assert messages[..i + 1][..i] == messages[..i];
  }

  /** The count is additive: appending messages adds exactly their costs. */
  lemma {:induction false} SumCostsAppend(a: seq<Message>, b: seq<Message>, enc: Tokenizer, overheads: (int, int))
    ensures SumCosts(a + b, enc, overheads) == SumCosts(a, enc, overheads) + SumCosts(b, enc, overheads)
    decreases |b|
  {
    if b == [] {
      assert a + b == a;
    } else {
      var b' := b[..|b| - 1];
      assert (a + b)[..|a + b| - 1] == a + b';
      SumCostsAppend(a, b', enc, overheads);
    }
  }

  /** Deleting the message at `i` lowers the count by exactly that message's cost. */
  lemma DeleteCost(ms: seq<Message>, i: nat, enc: Tokenizer, overheads: (int, int))
    requires i < |ms|
    ensures NumTokens(ms[..i] + ms[i + 1..], enc, overheads) == NumTokens(ms, enc, overheads) - MessageCost(ms[i], enc, overheads)
  {
    assert ms == ms[..i] + [ms[i]] + ms[i + 1..];
    SumCostsAppend(ms[..i] + [ms[i]], ms[i + 1..], enc, overheads);
    SumCostsAppend(ms[..i], [ms[i]], enc, overheads);
    SumCostsAppend(ms[..i], ms[i + 1..], enc, overheads);
    assert SumCosts([ms[i]], enc, overheads) == MessageCost(ms[i], enc, overheads) by {
      assert [ms[i]][..0] == [];
    }
  }

  /** Every shipped overhead pair makes a message cost at least 3 tokens, so
      removing any message strictly lowers the count. */
  lemma MessageCostAtLeastThree(m: Message, enc: Tokenizer, model: string)
    requires model in ModelTokens
    ensures MessageCost(m, enc, ModelTokens[model]) >= 3
  {
  }

  /** `image_url` entries are free: adding one to a dictionary does not change its count. */
  lemma {:induction false} ImageUrlIsFree(fields: seq<Field>, v: Value, enc: Tokenizer)
    ensures EncodeAndCountTokens(Dict(fields + [Field("image_url", v)]), enc) == EncodeAndCountTokens(Dict(fields), enc)
    decreases |fields|
  {
    if fields == [] {
      assert [Field("image_url", v)][1..] == [];
    } else {
      assert (fields + [Field("image_url", v)])[1..] == fields[1..] + [Field("image_url", v)];
      ImageUrlIsFree(fields[1..], v, enc);
    }
  }

  /** The window sizes `context_length` can return. */
  const ContextSizes: set<nat> := {4096, 16384, 8192, 32768, 1048576, 128000}

  /** `context_length`: a hard-coded chain of comparisons, independent of
      `MODEL_CONTEXT_LENGTHS` and of `resolve_model_alias`. Each alias branch
      calls `context_length` again on a dated model; since no dated model is an
      alias, that call runs the dated branches, which `DatedContextLength` holds. */
  function ContextLength(model: string): (r: Result<nat, Error>)
  {
    if model == Gpt35Turbo then DatedContextLength(Gpt35Turbo0125)
    else if model == Gpt35Turbo16k then DatedContextLength(Gpt35Turbo16k0613)
    else if model == Gpt4 then DatedContextLength(Gpt4_0613)
    else if model == Gpt4_32k then DatedContextLength(Gpt4_32k0613)
    else if model == Gpt4TurboPreview then DatedContextLength(Gpt4_0125Preview)
    else if model == Gpt4Turbo then DatedContextLength(Gpt4Turbo2024_04_09)
    else if model == Gpt4o then DatedContextLength(Gpt4o2024_05_13)
    else if model == Gpt4oMini then DatedContextLength(Gpt4oMini2024_07_18)
    else if model == Gpt41 then DatedContextLength(Gpt41_2025_04_14)
    else if model == Gpt41Mini then DatedContextLength(Gpt41Mini2025_04_14)
    else if model == Gpt41Nano then DatedContextLength(Gpt41Nano2025_04_14)
    else DatedContextLength(model)
  }

  /** The branches of `context_length` after the alias branches. */
  function DatedContextLength(model: string): Result<nat, Error>
  {
    if model == Gpt35Turbo0301 || model == Gpt35Turbo0613 then Success(4096)
    else if model == Gpt35Turbo16k0613 || model == Gpt35Turbo1106 || model == Gpt35Turbo0125 then Success(16384)
    else if model == Gpt4_0314 || model == Gpt4_0613 then Success(8192)
    else if model == Gpt4_32k0314 || model == Gpt4_32k0613 then Success(32768)
    else if model == Gpt41 || model == Gpt41_2025_04_14 || model == Gpt41Mini
         || model == Gpt41Mini2025_04_14 || model == Gpt41Nano || model == Gpt41Nano2025_04_14 then Success(1048576)
    else if model == Gpt4_1106Preview || model == Gpt4_0125Preview || model == Gpt4Turbo2024_04_09
         || model == Gpt4o2024_05_13 || model == Gpt4oMini2024_07_18 || model == Gpt5ChatLatest then Success(128000)
    else Failure(NotImplemented(model))
  }

  /** The models of the registry that `context_length` does not know. */
  const UnknownToContextLength: set<string> := {
    Gpt5, Gpt5Mini, Gpt5Nano, O3, O4Mini,
    Gpt5_2025_08_07, Gpt5Mini2025_08_07, Gpt5Nano2025_08_07, O3_2025_04_16, O4Mini2025_04_16
  }

  /** A dated model `context_length` knows gets its `MODEL_CONTEXT_LENGTHS` entry. */
  lemma ContextLengthOfDated(model: string)
    requires model in ModelContextLengths && model !in UnknownToContextLength
    ensures ContextLength(model) == Success(ModelContextLengths[model])
  {
    if model == Gpt35Turbo0301 {
      WindowOfGpt35Turbo0301();
    } else if model == Gpt35Turbo0613 {
      WindowOfGpt35Turbo0613();
    } else if model == Gpt35Turbo16k0613 {
      WindowOfGpt35Turbo16k0613();
    } else if model == Gpt35Turbo1106 {
      WindowOfGpt35Turbo1106();
    } else if model == Gpt35Turbo0125 {
      WindowOfGpt35Turbo0125();
    } else if model == Gpt4_0314 {
      WindowOfGpt4_0314();
    } else if model == Gpt4_0613 {
      WindowOfGpt4_0613();
    } else if model == Gpt4_32k0314 {
      WindowOfGpt4_32k0314();
    } else if model == Gpt4_32k0613 {
      WindowOfGpt4_32k0613();
    } else if model == Gpt4_1106Preview {
      WindowOfGpt4_1106Preview();
    } else if model == Gpt4_0125Preview {
      WindowOfGpt4_0125Preview();
    } else if model == Gpt4TurboPreview {
      WindowOfGpt4TurboPreview();
    } else if model == Gpt4Turbo2024_04_09 {
      WindowOfGpt4Turbo2024_04_09();
    } else if model == Gpt4o2024_05_13 {
      WindowOfGpt4o2024_05_13();
    } else if model == Gpt4oMini2024_07_18 {
      WindowOfGpt4oMini2024_07_18();
    } else if model == Gpt41_2025_04_14 {
      WindowOfGpt41_2025_04_14();
    } else if model == Gpt41Mini2025_04_14 {
      WindowOfGpt41Mini2025_04_14();
    } else if model == Gpt41Nano2025_04_14 {
      WindowOfGpt41Nano2025_04_14();
    } else if model == Gpt5ChatLatest {
      WindowOfGpt5ChatLatest();
    } else {
      assert false;
    }
  }

  /** An alias `context_length` knows gets the entry of the model it falls back to. */
  lemma ContextLengthOfAlias(model: string)
    requires model in ModelFallbacks && model !in UnknownToContextLength
    ensures ContextLength(model) == Success(ModelContextLengths[ModelFallbacks[model]])
  {
    if model == Gpt35Turbo {
      WindowOfGpt35Turbo();
    } else if model == Gpt35Turbo16k {
      WindowOfGpt35Turbo16k();
    } else if model == Gpt4 {
      WindowOfGpt4();
    } else if model == Gpt4Turbo {
      WindowOfGpt4Turbo();
    } else if model == Gpt4_32k {
      WindowOfGpt4_32k();
    } else if model == Gpt4o {
      WindowOfGpt4o();
    } else if model == Gpt4oMini {
      WindowOfGpt4oMini();
    } else if model == Gpt41 {
      WindowOfGpt41();
    } else if model == Gpt41Mini {
      WindowOfGpt41Mini();
    } else if model == Gpt41Nano {
      WindowOfGpt41Nano();
    } else {
      assert false;
    }
  }

  /** `context_length` answers only for registered models. */
  lemma ContextLengthOnlyRegistered(model: string)
    requires ContextLength(model).Success?
    ensures model in ModelContextLengths || model in ModelFallbacks
    ensures ContextLength(model).value in ContextSizes
  {
    if model !in ModelContextLengths && model !in ModelFallbacks {
      ContextLengthRejectsUnregistered(model);
    }
    ContextLengthSizes(model);
  }

  /** Every answer of `context_length` is one of the six window sizes. */
  lemma ContextLengthSizes(model: string)
    ensures ContextLength(model).Success? ==> ContextLength(model).value in ContextSizes
  {
    forall m | DatedContextLength(m).Success?
      ensures DatedContextLength(m).value in ContextSizes
    {
      DatedSizes(m);
    }
  }

  lemma DatedSizes(m: string)
    ensures DatedContextLength(m).Success? ==> DatedContextLength(m).value in ContextSizes
  {
  }

  /** The GPT-5 and o-series names are registered but `context_length` raises for them. */
  lemma ContextLengthRejectsGpt5Family(model: string)
    requires model in UnknownToContextLength
    ensures model in ModelFallbacks || model in ModelContextLengths
    ensures ContextLength(model) == Failure(NotImplemented(model))
  {
    Gpt5AliasesRejected(); OSeriesAliasesRejected(); Gpt5DatedRejected(); OSeriesDatedRejected();
  }

  /** `context_length` on the GPT-5 aliases. */
  lemma Gpt5AliasesRejected()
    ensures ContextLength(Gpt5) == Failure(NotImplemented(Gpt5))
    ensures ContextLength(Gpt5Mini) == Failure(NotImplemented(Gpt5Mini))
    ensures ContextLength(Gpt5Nano) == Failure(NotImplemented(Gpt5Nano))
  {
  }

  /** `context_length` on the o-series aliases. */
  lemma OSeriesAliasesRejected()
    ensures ContextLength(O3) == Failure(NotImplemented(O3))
    ensures ContextLength(O4Mini) == Failure(NotImplemented(O4Mini))
  {
  }

  /** `context_length` on the GPT-5 dated models. */
  lemma Gpt5DatedRejected()
    ensures ContextLength(Gpt5_2025_08_07) == Failure(NotImplemented(Gpt5_2025_08_07))
    ensures ContextLength(Gpt5Mini2025_08_07) == Failure(NotImplemented(Gpt5Mini2025_08_07))
    ensures ContextLength(Gpt5Nano2025_08_07) == Failure(NotImplemented(Gpt5Nano2025_08_07))
  {
  }

  /** `context_length` on the o-series dated models. */
  lemma OSeriesDatedRejected()
    ensures ContextLength(O3_2025_04_16) == Failure(NotImplemented(O3_2025_04_16))
    ensures ContextLength(O4Mini2025_04_16) == Failure(NotImplemented(O4Mini2025_04_16))
  {
  }

  /** An unregistered name is refused with NotImplementedError naming it. */
  lemma ContextLengthRejectsUnregistered(model: string)
    requires model !in ModelContextLengths && model !in ModelFallbacks
    ensures ContextLength(model) == Failure(NotImplemented(model))
  {
  }

  /*** `context_length` on each name it knows ***/

  lemma WindowOfGpt35Turbo0301()
    ensures ContextLength(Gpt35Turbo0301) == Success(ModelContextLengths[Gpt35Turbo0301])
  {
  }

  lemma WindowOfGpt35Turbo0613()
    ensures ContextLength(Gpt35Turbo0613) == Success(ModelContextLengths[Gpt35Turbo0613])
  {
  }

  lemma WindowOfGpt35Turbo16k0613()
    ensures ContextLength(Gpt35Turbo16k0613) == Success(ModelContextLengths[Gpt35Turbo16k0613])
  {
  }

  lemma WindowOfGpt35Turbo1106()
    ensures ContextLength(Gpt35Turbo1106) == Success(ModelContextLengths[Gpt35Turbo1106])
  {
  }

  lemma WindowOfGpt35Turbo0125()
    ensures ContextLength(Gpt35Turbo0125) == Success(ModelContextLengths[Gpt35Turbo0125])
  {
  }

  lemma WindowOfGpt4_0314()
    ensures ContextLength(Gpt4_0314) == Success(ModelContextLengths[Gpt4_0314])
  {
  }

  lemma WindowOfGpt4_0613()
    ensures ContextLength(Gpt4_0613) == Success(ModelContextLengths[Gpt4_0613])
  {
  }

  lemma WindowOfGpt4_32k0314()
    ensures ContextLength(Gpt4_32k0314) == Success(ModelContextLengths[Gpt4_32k0314])
  {
  }

  lemma WindowOfGpt4_32k0613()
    ensures ContextLength(Gpt4_32k0613) == Success(ModelContextLengths[Gpt4_32k0613])
  {
  }

  lemma WindowOfGpt4_1106Preview()
    ensures ContextLength(Gpt4_1106Preview) == Success(ModelContextLengths[Gpt4_1106Preview])
  {
  }

  lemma WindowOfGpt4_0125Preview()
    ensures ContextLength(Gpt4_0125Preview) == Success(ModelContextLengths[Gpt4_0125Preview])
  {
  }

  lemma WindowOfGpt4TurboPreview()
    ensures ContextLength(Gpt4TurboPreview) == Success(ModelContextLengths[Gpt4TurboPreview])
  {
  }

  lemma WindowOfGpt4Turbo2024_04_09()
    ensures ContextLength(Gpt4Turbo2024_04_09) == Success(ModelContextLengths[Gpt4Turbo2024_04_09])
  {
  }

  lemma WindowOfGpt4o2024_05_13()
    ensures ContextLength(Gpt4o2024_05_13) == Success(ModelContextLengths[Gpt4o2024_05_13])
  {
  }

  lemma WindowOfGpt4oMini2024_07_18()
    ensures ContextLength(Gpt4oMini2024_07_18) == Success(ModelContextLengths[Gpt4oMini2024_07_18])
  {
  }

  lemma WindowOfGpt41_2025_04_14()
    ensures ContextLength(Gpt41_2025_04_14) == Success(ModelContextLengths[Gpt41_2025_04_14])
  {
  }

  lemma WindowOfGpt41Mini2025_04_14()
    ensures ContextLength(Gpt41Mini2025_04_14) == Success(ModelContextLengths[Gpt41Mini2025_04_14])
  {
  }

  lemma WindowOfGpt41Nano2025_04_14()
    ensures ContextLength(Gpt41Nano2025_04_14) == Success(ModelContextLengths[Gpt41Nano2025_04_14])
  {
  }

  lemma WindowOfGpt5ChatLatest()
    ensures ContextLength(Gpt5ChatLatest) == Success(ModelContextLengths[Gpt5ChatLatest])
  {
  }

  lemma WindowOfGpt35Turbo()
    ensures ContextLength(Gpt35Turbo) == Success(ModelContextLengths[ModelFallbacks[Gpt35Turbo]])
  {
  }

  lemma WindowOfGpt35Turbo16k()
    ensures ContextLength(Gpt35Turbo16k) == Success(ModelContextLengths[ModelFallbacks[Gpt35Turbo16k]])
  {
  }

  lemma WindowOfGpt4()
    ensures ContextLength(Gpt4) == Success(ModelContextLengths[ModelFallbacks[Gpt4]])
  {
  }

  lemma WindowOfGpt4Turbo()
    ensures ContextLength(Gpt4Turbo) == Success(ModelContextLengths[ModelFallbacks[Gpt4Turbo]])
  {
  }

  lemma WindowOfGpt4_32k()
    ensures ContextLength(Gpt4_32k) == Success(ModelContextLengths[ModelFallbacks[Gpt4_32k]])
  {
  }

  lemma WindowOfGpt4o()
    ensures ContextLength(Gpt4o) == Success(ModelContextLengths[ModelFallbacks[Gpt4o]])
  {
  }

  lemma WindowOfGpt4oMini()
    ensures ContextLength(Gpt4oMini) == Success(ModelContextLengths[ModelFallbacks[Gpt4oMini]])
  {
  }

  lemma WindowOfGpt41()
    ensures ContextLength(Gpt41) == Success(ModelContextLengths[ModelFallbacks[Gpt41]])
  {
  }

  lemma WindowOfGpt41Mini()
    ensures ContextLength(Gpt41Mini) == Success(ModelContextLengths[ModelFallbacks[Gpt41Mini]])
  {
  }

  lemma WindowOfGpt41Nano()
    ensures ContextLength(Gpt41Nano) == Success(ModelContextLengths[ModelFallbacks[Gpt41Nano]])
  {
  }
}
