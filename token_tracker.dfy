/** `extract_token_usage`: turns the usage metadata of an agent run into one
    token count. Usage sits either on the result itself or on each message,
    as a dict or as an object; any exception is caught and the count
    accumulated so far is returned. */
module TokenTracker {
  import opened Wrappers
  import opened Responses

  /** What reading one usage record yields: a count, Python's `None` (an
      object whose `total_tokens` attribute is `None`), or an exception. */
  datatype Reading = Tokens(n: int) | NoneTokens | ReadFails

  /** `getattr(usage, name, 0)` for a slot that is not `None`. */
  function OrZero(v: Slot): int
    requires !v.NoneVal?
  {
    if v.IntVal? then v.n else 0
  }

  /** The count one usage record contributes.
      Dict: `usage.get("total_tokens") or usage.get("usage", {}).get("total_tokens") or 0`,
      where `0` and `None` are both falsy and `.get` on a non-dict `usage`
      entry raises. Object: `getattr(usage, "total_tokens", prompt + completion)`,
      whose default is evaluated first, so a `None` prompt or completion count
      raises even when `total_tokens` is present. */
  function ReadUsage(u: Usage): (r: Reading)
    ensures u.DictUsage? ==> !r.NoneTokens?
    ensures u.DictUsage? && SlotTruthy(u.total) ==> r == Tokens(u.total.n)
    ensures u.DictUsage? && !SlotTruthy(u.total) && u.nested.NoNested? ==> r == Tokens(0)
    ensures u.DictUsage? && !SlotTruthy(u.total) && u.nested.NestedDict? ==>
      r == (if SlotTruthy(u.nested.total) then Tokens(u.nested.total.n) else Tokens(0))
    ensures u.DictUsage? && !SlotTruthy(u.total) && u.nested.NestedNotDict? ==> r == ReadFails
    ensures u.ObjUsage? ==> (r.ReadFails? <==> u.prompt.NoneVal? || u.completion.NoneVal?)
    ensures u.ObjUsage? && !r.ReadFails? && u.total.Missing? ==> r == Tokens(OrZero(u.prompt) + OrZero(u.completion))
    ensures u.ObjUsage? && !r.ReadFails? && u.total.NoneVal? ==> r.NoneTokens?
    ensures u.ObjUsage? && !r.ReadFails? && u.total.IntVal? ==> r == Tokens(u.total.n)
  {
    match u
    case DictUsage(total, nested, _) =>
      if SlotTruthy(total) then Tokens(total.n)
      else (
        match nested
        case NoNested => Tokens(0)
        case NestedDict(t) => if SlotTruthy(t) then Tokens(t.n) else Tokens(0)
        case NestedNotDict => ReadFails)
    case ObjUsage(prompt, completion, total) =>
      if prompt.NoneVal? || completion.NoneVal? then ReadFails
      else
        var sum := OrZero(prompt) + OrZero(completion);
        match total
        case Missing => Tokens(sum)
        case NoneVal => NoneTokens
        case IntVal(n) => Tokens(n)
  }

  /** `if hasattr(result, "models_usage") and result.models_usage` */
  predicate HasDirectUsage(r: StageResult) {
    r.usage.Some? && UsageTruthy(r.usage.value)
  }

  /** `if msg_usage:` for one message. */
  predicate Counted(m: Message) {
    m.usage.Some? && UsageTruthy(m.usage.value)
  }

  /** The message whose `total_tokens += ...` raises (a failed read, or `+= None`). */
  predicate Breaks(m: Message) {
    Counted(m) && !ReadUsage(m.usage.value).Tokens?
  }

  /** What a message that does not break adds to the running total. */
  function Contribution(m: Message): int
    requires !Breaks(m)
  {
    if Counted(m) then ReadUsage(m.usage.value).n else 0
  }

  /** The per-message loop: adds each counted message's tokens to `acc` in
      order and, at the first message that raises, stops with the total
      accumulated so far. */
  function Accumulate(msgs: seq<Message>, acc: int): int
    decreases |msgs|
  {
    if msgs == [] then acc
    else if Breaks(msgs[0]) then acc
    else Accumulate(msgs[1..], acc + Contribution(msgs[0]))
  }

  /** Reference definition: the plain sum of the counted messages' tokens. */
  function CountedSum(msgs: seq<Message>): int
    requires forall j :: 0 <= j < |msgs| ==> !Breaks(msgs[j])
    decreases |msgs|
  {
    if msgs == [] then 0 else Contribution(msgs[0]) + CountedSum(msgs[1..])
  }

  /** The value `extract_token_usage(result)` returns; `None` stands for
      Python's `None`. */
  function TokenUsage(r: StageResult): (t: Option<int>)
    ensures t.None? <==> HasDirectUsage(r) && ReadUsage(r.usage.value).NoneTokens?
    ensures HasDirectUsage(r) && ReadUsage(r.usage.value).ReadFails? ==> t == Some(0)
    ensures !HasDirectUsage(r) && !HasMessages(r) ==> t == Some(0)
  {
    if HasDirectUsage(r) then
      match ReadUsage(r.usage.value)
      case Tokens(n) => Some(n)
      case NoneTokens => None
      case ReadFails => Some(0)
    else if HasMessages(r) then
      Some(Accumulate(r.messages.items, 0))
    else
      Some(0)
  }

  /** `extract_token_usage`, with the per-message loop updating the
      accumulator in place. */
  method ExtractTokenUsage(r: StageResult) returns (total: Option<int>)
    ensures total == TokenUsage(r)
  {
    var totalTokens := 0;
    if HasDirectUsage(r) {
      match ReadUsage(r.usage.value)
      case Tokens(n) => return Some(n);
      case NoneTokens => return None;
      case ReadFails => return Some(totalTokens);
    } else if HasMessages(r) {
      var msgs := r.messages.items;
      var i := 0;
      while i < |msgs|
        invariant 0 <= i <= |msgs|
        invariant Accumulate(msgs, 0) == Accumulate(msgs[i..], totalTokens)
      {
        var m := msgs[i];
        assert msgs[i..][0] == m && msgs[i..][1..] == msgs[i + 1..];
        if Counted(m) {
          match ReadUsage(m.usage.value)
          case Tokens(n) => totalTokens := totalTokens + n;
          case NoneTokens => return Some(totalTokens);
          case ReadFails => return Some(totalTokens);
        }
        i := i + 1;
      }
    }
    return Some(totalTokens);
  }

  lemma {:induction false} AccumulateAll(msgs: seq<Message>, acc: int)
    requires forall j :: 0 <= j < |msgs| ==> !Breaks(msgs[j])
    ensures Accumulate(msgs, acc) == acc + CountedSum(msgs)
    decreases |msgs|
  {
    if msgs != [] {
      AccumulateAll(msgs[1..], acc + Contribution(msgs[0]));
    }
  }

  lemma {:induction false} AccumulateUpTo(msgs: seq<Message>, acc: int, k: nat)
    requires k < |msgs| && Breaks(msgs[k])
    requires forall j :: 0 <= j < k ==> !Breaks(msgs[j])
    ensures Accumulate(msgs, acc) == acc + CountedSum(msgs[..k])
    decreases k
  {
    if k > 0 {
      assert msgs[1..][..k - 1] == msgs[..k][1..];
      AccumulateUpTo(msgs[1..], acc + Contribution(msgs[0]), k - 1);
    }
  }

  /** A truthy top-level dict usage with a truthy `total_tokens` gives that
      count, whatever the messages carry. */
  lemma DirectDictTotal(r: StageResult, n: int, nested: Nested, otherKeys: bool)
    requires r.usage == Some(DictUsage(IntVal(n), nested, otherKeys)) && n != 0
    ensures TokenUsage(r) == Some(n)
  {
  }

  /** A non-empty top-level dict whose `total_tokens` is missing, `0` or
      `None` falls back to a truthy nested `usage.total_tokens`, and
      otherwise to 0 (also when `.get` on a non-dict `usage` raises). */
  lemma DirectDictFallback(r: StageResult, t: Slot, nested: Nested, otherKeys: bool)
    requires r.usage == Some(DictUsage(t, nested, otherKeys))
    requires UsageTruthy(r.usage.value) && !SlotTruthy(t)
    ensures nested.NestedDict? && SlotTruthy(nested.total) ==> TokenUsage(r) == Some(nested.total.n)
    ensures !(nested.NestedDict? && SlotTruthy(nested.total)) ==> TokenUsage(r) == Some(0)
  {
  }

  /** An object usage without a `total_tokens` attribute gives
      `prompt_tokens + completion_tokens`, each defaulting to 0; with the
      attribute set to an int it gives that int. */
  lemma DirectObjectCount(r: StageResult, p: Slot, c: Slot, t: Slot)
    requires r.usage == Some(ObjUsage(p, c, t)) && !p.NoneVal? && !c.NoneVal?
    ensures t.Missing? ==> TokenUsage(r) == Some(OrZero(p) + OrZero(c))
    ensures t.IntVal? ==> TokenUsage(r) == Some(t.n)
  {
  }

  /** Truthy top-level usage takes precedence: the messages are not consulted. */
  lemma DirectPrecedence(r: StageResult, msgs: MessageList)
    requires HasDirectUsage(r)
    ensures TokenUsage(r.(messages := msgs)) == TokenUsage(r)
  {
  }

  /** Without truthy top-level usage, and when no message read raises, the
      result is the in-order sum over messages with truthy usage. */
  lemma MessagesSum(r: StageResult)
    requires !HasDirectUsage(r) && r.messages.Listed?
    requires forall j :: 0 <= j < |r.messages.items| ==> !Breaks(r.messages.items[j])
    ensures TokenUsage(r) == Some(CountedSum(r.messages.items))
  {
    AccumulateAll(r.messages.items, 0);
  }

  /** When message `k` is the first whose read raises, the result is the sum
      accumulated over the messages before it. */
  lemma FailureKeepsPrefix(r: StageResult, k: nat)
    requires !HasDirectUsage(r) && r.messages.Listed? && k < |r.messages.items|
    requires Breaks(r.messages.items[k])
    requires forall j :: 0 <= j < k ==> !Breaks(r.messages.items[j])
    ensures TokenUsage(r) == Some(CountedSum(r.messages.items[..k]))
  {
    AccumulateUpTo(r.messages.items, 0, k);
  }

  lemma {:induction false} CountedSumNone(msgs: seq<Message>)
    requires forall j :: 0 <= j < |msgs| ==> !Counted(msgs[j])
    ensures CountedSum(msgs) == 0
    decreases |msgs|
  {
    if msgs != [] {
      CountedSumNone(msgs[1..]);
    }
  }

  /** A result with no truthy usage anywhere yields 0. */
  lemma NoUsageZero(r: StageResult)
    requires !HasDirectUsage(r)
    requires r.messages.Listed? ==> forall j :: 0 <= j < |r.messages.items| ==> !Counted(r.messages.items[j])
    ensures TokenUsage(r) == Some(0)
  {
    if HasMessages(r) {
      CountedSumNone(r.messages.items);
      MessagesSum(r);
    }
  }

  predicate SlotNonNeg(v: Slot) {
    v.IntVal? ==> v.n >= 0
  }

  predicate UsageNonNeg(u: Usage) {
    match u
    case DictUsage(total, nested, _) =>
      SlotNonNeg(total) && (nested.NestedDict? ==> SlotNonNeg(nested.total))
    case ObjUsage(prompt, completion, total) =>
      SlotNonNeg(prompt) && SlotNonNeg(completion) && SlotNonNeg(total)
  }

  /** No usage record anywhere in the result holds a negative count. */
  predicate NoNegativeCounts(r: StageResult) {
    (r.usage.Some? ==> UsageNonNeg(r.usage.value))
    && (r.messages.Listed? ==>
          forall j :: 0 <= j < |r.messages.items| ==>
            r.messages.items[j].usage.Some? ==> UsageNonNeg(r.messages.items[j].usage.value))
  }

  lemma {:induction false} AccumulateNonNeg(msgs: seq<Message>, acc: int)
    requires acc >= 0
    requires forall j :: 0 <= j < |msgs| ==> msgs[j].usage.Some? ==> UsageNonNeg(msgs[j].usage.value)
    ensures Accumulate(msgs, acc) >= acc
    decreases |msgs|
  {
    if msgs != [] && !Breaks(msgs[0]) {
      AccumulateNonNeg(msgs[1..], acc + Contribution(msgs[0]));
    }
  }

  /** With no negative count anywhere, the result is never negative. */
  lemma NonNegative(r: StageResult)
    requires NoNegativeCounts(r)
    ensures TokenUsage(r).Some? ==> TokenUsage(r).value >= 0
  {
    if !HasDirectUsage(r) && HasMessages(r) {
      AccumulateNonNeg(r.messages.items, 0);
    }
  }

  /** The extractor returns Python's `None` exactly when the top-level usage
      is an object whose `total_tokens` attribute is `None` while its prompt
      and completion counts are not. */
  lemma NoneResult(r: StageResult)
    ensures TokenUsage(r).None? <==>
      (r.usage.Some? && r.usage.value.ObjUsage? && r.usage.value.total.NoneVal?
       && !r.usage.value.prompt.NoneVal? && !r.usage.value.completion.NoneVal?)
  {
  }

  /** Two messages whose dict usage says 3 and 5 total 8. */
  lemma TwoMessages(r: StageResult)
    requires !HasDirectUsage(r)
    requires r.messages == Listed([Message(Str("a"), Some(DictUsage(IntVal(3), NoNested, false))),
                                 Message(Str("b"), Some(DictUsage(IntVal(5), NoNested, false)))])
    ensures TokenUsage(r) == Some(8)
  {
  }
}
