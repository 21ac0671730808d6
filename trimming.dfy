/** `messages_within_context_window` of app/openai_ops.py: the conversation is
    trimmed in place, earliest user, assistant and function message first,
    until its token count fits the model's window less the reply budget. */
module ContextWindow {
  import opened Wrappers
  import opened ModelRegistry
  import opened TokenCounting

  /** The roles the trimming loop may delete; every other message (the system
      prompt) is kept. */
  predicate IsRemovable(m: Message) {
    m.role == "user" || m.role == "assistant" || m.role == "function"
  }

  /** The index the inner `for` loop stops at: the first removable message. */
  function FirstRemovable(ms: seq<Message>): (r: Option<nat>)
    ensures r.Some? ==> r.value < |ms|
  {
    if ms == [] then None
    else if IsRemovable(ms[0]) then Some(0)
    else match FirstRemovable(ms[1..])
      case None => None
      case Some(i) => Some(i + 1)
  }

  /** The index found is the first removable message, and none is found
      exactly when no message is removable. */
  lemma {:induction false} FirstRemovableIsFirst(ms: seq<Message>)
    ensures var r := FirstRemovable(ms);
      && (r.Some? ==> IsRemovable(ms[r.value]) && forall j :: 0 <= j < r.value ==> !IsRemovable(ms[j]))
      && (r.None? <==> forall j :: 0 <= j < |ms| ==> !IsRemovable(ms[j]))
    decreases |ms|
  {
    if ms != [] && !IsRemovable(ms[0]) {
      FirstRemovableIsFirst(ms[1..]);
      assert forall j :: 1 <= j < |ms| ==> ms[j] == ms[1..][j - 1];
    }
  }

  /** `del messages[i]`. */
  function Delete(ms: seq<Message>, i: nat): seq<Message>
    requires i < |ms|
  {
    ms[..i] + ms[i + 1..]
  }

  /** The messages trimming can never delete, in order. */
  function Kept(ms: seq<Message>): seq<Message> {
    if ms == [] then [] else (if IsRemovable(ms[0]) then [] else [ms[0]]) + Kept(ms[1..])
  }

  /** The overheads `calculate_num_tokens` uses with its default model. */
  const DefaultOverheads: (int, int) := (3, 1)

  /** The default counting model has registered overheads, so counting with it never raises. */
  lemma DefaultOverheadsRegistered()
    ensures DefaultTokenCountModel in ModelTokens && ModelTokens[DefaultTokenCountModel] == DefaultOverheads
  {
  }

  /** The count the trimming loop compares with the budget. */
  function Count(ms: seq<Message>, enc: Tokenizer): int {
    NumTokens(ms, enc, DefaultOverheads)
  }

  /** The budget: the window less `MAX_TOKENS` and one, less the prompt tokens
      the function-call definitions take when a function-call module is configured. */
  function Budget(model: string, functionCallTokens: Option<int>): (r: Result<int, Error>)
    ensures r.Success? <==> ContextLength(model).Success?
    ensures r.Success? ==>
      r.value == ContextLength(model).value - MaxTokens - 1 - (if functionCallTokens.Some? then functionCallTokens.value else 0)
    ensures r.Failure? ==> r.error == NotImplemented(model)
  {
    match ContextLength(model)
    case Failure(e) => Failure(e)
    case Success(n) =>
      var afterReply := n - MaxTokens - 1;
      Success(if functionCallTokens.Some? then afterReply - functionCallTokens.value else afterReply)
  }

  /** The outcome of the trimming loop from `ms`: the remaining messages and
      `num_context_tokens`, where `last` is the count before the latest deletion.
      The loop stops when the count fits (the `while ... else` branch records
      that count) or when nothing removable is left (`last` is kept). */
  function Trim(ms: seq<Message>, budget: int, enc: Tokenizer, last: int): (seq<Message>, int)
    decreases |ms|
  {
    var n := Count(ms, enc);
    if n <= budget then (ms, n)
    else match FirstRemovable(ms)
      case None => (ms, last)
      case Some(i) => Trim(Delete(ms, i), budget, enc, n)
  }

  /** The conversation after the `k` earliest removable messages are deleted. */
  function DropEarliest(ms: seq<Message>, k: nat): seq<Message>
    decreases k
  {
    if k == 0 then ms
    else match FirstRemovable(ms)
      case None => ms
      case Some(i) => DropEarliest(Delete(ms, i), k - 1)
  }

  /** The report `messages_within_context_window` returns beside the messages. */
  datatype Report = Report(numContextTokens: int, maxContextTokens: int)

  /** The message list a request is built from; the trimming loop deletes from it in place. */
  class Conversation {
    var messages: seq<Message>

    constructor (messages: seq<Message>)
      ensures this.messages == messages
    {
      this.messages := messages;
    }

    /** `messages_within_context_window`. When `context_length` raises, nothing
        is deleted; otherwise the messages become the trimmed list. */
    method WithinContextWindow(model: string, functionCallTokens: Option<int>, encodingFor: EncodingTable)
      returns (r: Result<Report, Error>)
      modifies this
      ensures Budget(model, functionCallTokens).Failure? ==>
        r == Failure(NotImplemented(model)) && messages == old(messages)
      ensures Budget(model, functionCallTokens).Success? ==>
        var budget := Budget(model, functionCallTokens).value;
        var t := Trim(old(messages), budget, encodingFor(DefaultTokenCountModel), 0);
        messages == t.0 && r == Success(Report(t.1, budget))
    {
      var budget := Budget(model, functionCallTokens);
      if budget.Failure? {
        return Failure(budget.error);
      }
      var maxContextTokens := budget.value;
      var numContextTokens := TrimToBudget(maxContextTokens, encodingFor);
      r := Success(Report(numContextTokens, maxContextTokens));
    }

    /** The `while` loop of `messages_within_context_window`: count, and while
        the count exceeds the budget delete the first removable message. */
    method TrimToBudget(maxContextTokens: int, encodingFor: EncodingTable) returns (numContextTokens: int)
      modifies this
      ensures var t := Trim(old(messages), maxContextTokens, encodingFor(DefaultTokenCountModel), 0);
        messages == t.0 && numContextTokens == t.1
    {
      ghost var enc := encodingFor(DefaultTokenCountModel);
      DefaultOverheadsRegistered();
      numContextTokens := 0;
      while true
        invariant Trim(messages, maxContextTokens, enc, numContextTokens)
               == Trim(old(messages), maxContextTokens, enc, 0)
        decreases |messages|
      {
        var counted := CalculateNumTokens(messages, DefaultTokenCountModel, encodingFor);
        var numTokens := counted.value;
        if numTokens <= maxContextTokens {
          TrimFits(messages, maxContextTokens, enc, numContextTokens);
          numContextTokens := numTokens;
          break;
        }
        var i := FindRemovable(messages);
        if i == |messages| {
          TrimStuck(messages, maxContextTokens, enc, numContextTokens);
          break;
        }
        TrimStep(messages, maxContextTokens, enc, numContextTokens, i);
        numContextTokens := numTokens;
        messages := Delete(messages, i);
      }
    }
  }

  /** The inner `for` loop: the index of the first removable message, or the
      length when there is none. */
  method FindRemovable(ms: seq<Message>) returns (i: nat)
    ensures i <= |ms|
    ensures i < |ms| ==> FirstRemovable(ms) == Some(i)
    ensures i == |ms| ==> FirstRemovable(ms).None?
  {
    i := 0;
    while i < |ms| && !IsRemovable(ms[i])
      invariant 0 <= i <= |ms|
      invariant forall j :: 0 <= j < i ==> !IsRemovable(ms[j])
    {
      i := i + 1;
    }
    FirstRemovableIsFirst(ms);
  }

  /** Deleting a removable message leaves the kept messages as they were. */
  lemma {:induction false} KeptDelete(ms: seq<Message>, i: nat)
    requires i < |ms| && IsRemovable(ms[i])
    ensures Kept(Delete(ms, i)) == Kept(ms)
    decreases i
  {
    if i == 0 {
      assert Delete(ms, 0) == ms[1..];
    } else {
      assert Delete(ms, i)[1..] == Delete(ms[1..], i - 1);
      KeptDelete(ms[1..], i - 1);
    }
  }

  /** A conversation with nothing removable is all kept messages. */
  lemma {:induction false} KeptOfUnremovable(ms: seq<Message>)
    requires forall j :: 0 <= j < |ms| ==> !IsRemovable(ms[j])
    ensures Kept(ms) == ms
    decreases |ms|
  {
    if ms != [] {
      KeptOfUnremovable(ms[1..]);
      assert [ms[0]] + ms[1..] == ms;
    }
  }

  /** Trimming deletes removable messages only: the system prompt and every
      other kept message survive, in their order. */
  lemma {:induction false} TrimPreservesKept(ms: seq<Message>, budget: int, enc: Tokenizer, last: int)
    ensures Kept(Trim(ms, budget, enc, last).0) == Kept(ms)
    decreases |ms|
  {
    if Count(ms, enc) > budget {
      match FirstRemovable(ms)
      case None =>
      case Some(i) =>
        FirstRemovableIsFirst(ms);
        KeptDelete(ms, i);
        TrimPreservesKept(Delete(ms, i), budget, enc, Count(ms, enc));
    }
  }

  /** When trimming stops, the conversation fits the budget and the report is
      its count, or nothing removable is left and the report is the count
      before the latest deletion. */
  lemma {:induction false} TrimStops(ms: seq<Message>, budget: int, enc: Tokenizer, last: int)
    ensures var t := Trim(ms, budget, enc, last);
      || (Count(t.0, enc) <= budget && t.1 == Count(t.0, enc))
      || (Count(t.0, enc) > budget && FirstRemovable(t.0).None? && Kept(t.0) == t.0)
    decreases |ms|
  {
    if Count(ms, enc) > budget {
      match FirstRemovable(ms)
      case None =>
        FirstRemovableIsFirst(ms);
        KeptOfUnremovable(ms);
      case Some(i) => TrimStops(Delete(ms, i), budget, enc, Count(ms, enc));
    }
  }

  /** If the kept messages alone fit, trimming always reaches a conversation
      that fits, and reports its count. */
  lemma TrimFitsWhenKeptFits(ms: seq<Message>, budget: int, enc: Tokenizer, last: int)
    requires Count(Kept(ms), enc) <= budget
    ensures var t := Trim(ms, budget, enc, last); Count(t.0, enc) <= budget && t.1 == Count(t.0, enc)
  {
    TrimStops(ms, budget, enc, last);
    TrimPreservesKept(ms, budget, enc, last);
  }

  /** Trimming deletes exactly the `k` earliest removable messages, where every
      shorter prefix of deletions still overflowed the budget: no message is
      deleted that was not needed. `num_context_tokens` is the count just
      before the last deletion when the result still overflows. */
  lemma {:induction false} TrimIsLeastDrop(ms: seq<Message>, budget: int, enc: Tokenizer, last: int) returns (k: nat)
    ensures Trim(ms, budget, enc, last).0 == DropEarliest(ms, k)
    ensures forall j :: 0 <= j < k ==> Count(DropEarliest(ms, j), enc) > budget
    ensures var t := Trim(ms, budget, enc, last);
      Count(t.0, enc) > budget ==> t.1 == (if k == 0 then last else Count(DropEarliest(ms, k - 1), enc))
    decreases |ms|, 1
  {
    if Count(ms, enc) <= budget {
      TrimFits(ms, budget, enc, last);
      return 0;
    }
    match FirstRemovable(ms)
    case None =>
      TrimStuck(ms, budget, enc, last);
      return 0;
    case Some(i) =>
      k := LeastDropDeletes(ms, budget, enc, last, i);
  }

  /** The case where the loop deletes the message at `i`. */
  lemma {:induction false} LeastDropDeletes(ms: seq<Message>, budget: int, enc: Tokenizer, last: int, i: nat) returns (k: nat)
    requires Count(ms, enc) > budget && FirstRemovable(ms) == Some(i)
    ensures Trim(ms, budget, enc, last).0 == DropEarliest(ms, k)
    ensures forall j :: 0 <= j < k ==> Count(DropEarliest(ms, j), enc) > budget
    ensures var t := Trim(ms, budget, enc, last);
      Count(t.0, enc) > budget ==> t.1 == (if k == 0 then last else Count(DropEarliest(ms, k - 1), enc))
    decreases |ms|, 0
  {
    var k' := TrimIsLeastDrop(Delete(ms, i), budget, enc, Count(ms, enc));
    k := k' + 1;
    LeastDropTrims(ms, budget, enc, last, i, k');
    LeastDropOverflows(ms, budget, enc, i, k');
    LeastDropReports(ms, budget, enc, last, i, k');
  }

  /** The deletion at `i` followed by the `k` earliest of the rest is the
      `k + 1` earliest. */
  lemma LeastDropTrims(ms: seq<Message>, budget: int, enc: Tokenizer, last: int, i: nat, k: nat)
    requires Count(ms, enc) > budget && FirstRemovable(ms) == Some(i)
    requires Trim(Delete(ms, i), budget, enc, Count(ms, enc)).0 == DropEarliest(Delete(ms, i), k)
    ensures Trim(ms, budget, enc, last).0 == DropEarliest(ms, k + 1)
  {
    TrimStep(ms, budget, enc, last, i);
    DropStep(ms, k + 1, i);
  }

  lemma LeastDropOverflows(ms: seq<Message>, budget: int, enc: Tokenizer, i: nat, k: nat)
    requires Count(ms, enc) > budget && FirstRemovable(ms) == Some(i)
    requires forall j :: 0 <= j < k ==> Count(DropEarliest(Delete(ms, i), j), enc) > budget
    ensures forall j :: 0 <= j < k + 1 ==> Count(DropEarliest(ms, j), enc) > budget
  {
    forall j | 0 <= j < k + 1
      ensures Count(DropEarliest(ms, j), enc) > budget
    {
      if j == 0 {
        assert DropEarliest(ms, 0) == ms;
      } else {
        DropStep(ms, j, i);
      }
    }
  }

  lemma LeastDropReports(ms: seq<Message>, budget: int, enc: Tokenizer, last: int, i: nat, k: nat)
    requires Count(ms, enc) > budget && FirstRemovable(ms) == Some(i)
    requires var t := Trim(Delete(ms, i), budget, enc, Count(ms, enc));
      Count(t.0, enc) > budget ==> t.1 == (if k == 0 then Count(ms, enc) else Count(DropEarliest(Delete(ms, i), k - 1), enc))
    ensures var t := Trim(ms, budget, enc, last);
      Count(t.0, enc) > budget ==> t.1 == Count(DropEarliest(ms, k), enc)
  {
    TrimStep(ms, budget, enc, last, i);
    if k == 0 {
      assert DropEarliest(ms, 0) == ms;
    } else {
      DropStep(ms, k, i);
    }
  }

  lemma TrimFits(ms: seq<Message>, budget: int, enc: Tokenizer, last: int)
    requires Count(ms, enc) <= budget
    ensures Trim(ms, budget, enc, last) == (ms, Count(ms, enc)) && DropEarliest(ms, 0) == ms
  {
  }

  lemma TrimStuck(ms: seq<Message>, budget: int, enc: Tokenizer, last: int)
    requires Count(ms, enc) > budget && FirstRemovable(ms).None?
    ensures Trim(ms, budget, enc, last) == (ms, last) && DropEarliest(ms, 0) == ms
  {
  }

  /** One deletion of the trimming loop. */
  lemma TrimStep(ms: seq<Message>, budget: int, enc: Tokenizer, last: int, i: nat)
    requires Count(ms, enc) > budget && FirstRemovable(ms) == Some(i)
    ensures Trim(ms, budget, enc, last) == Trim(Delete(ms, i), budget, enc, Count(ms, enc))
  {
  }

  lemma DropStep(ms: seq<Message>, k: nat, i: nat)
    requires k > 0 && FirstRemovable(ms) == Some(i)
    ensures DropEarliest(ms, k) == DropEarliest(Delete(ms, i), k - 1)
  {
  }

  /** Each deleted message takes at least three tokens with it. */
  lemma {:induction false} DropEarliestLowersCount(ms: seq<Message>, k: nat, enc: Tokenizer)
    ensures |DropEarliest(ms, k)| <= |ms|
    ensures Count(DropEarliest(ms, k), enc) <= Count(ms, enc) - 3 * (|ms| - |DropEarliest(ms, k)|)
    decreases k
  {
    if k > 0 {
      match FirstRemovable(ms)
      case None =>
      case Some(i) =>
        DeleteCost(ms, i, enc, DefaultOverheads);
        MessageCostAtLeastThree(ms[i], enc, DefaultTokenCountModel);
        DropEarliestLowersCount(Delete(ms, i), k - 1, enc);
    }
  }
}
