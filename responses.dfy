/** The loosely typed response an agent run hands back, and what a stage
    returns. Python's duck typing is resolved into tagged unions: every
    attribute the pipeline probes is a slot saying whether it is missing,
    `None`, or holds a value. */
module Responses {
  import opened Wrappers

  /** A text-valued attribute: missing, `None`, a string, or some other
      object (a list of tool calls, say), with its Python truthiness. */
  datatype Field = Absent | PyNone | Str(s: string) | Other(truthy: bool)

  /** Python truthiness of an attribute value (`not text`). */
  predicate Truthy(f: Field) {
    match f
    case Absent => false
    case PyNone => false
    case Str(s) => s != []
    case Other(b) => b
  }

  /** `getattr(x, name, None)` / `d.get(name)`: a missing attribute reads as `None`. */
  function GetOrNone(f: Field): (r: Field)
    ensures !r.Absent?
    ensures f.Absent? ==> r == PyNone
    ensures !f.Absent? ==> r == f
  {
    if f.Absent? then PyNone else f
  }

  /** A token count held under a key or attribute of a usage record. */
  datatype Slot = Missing | NoneVal | IntVal(n: int)

  predicate SlotTruthy(v: Slot) {
    v.IntVal? && v.n != 0
  }

  /** The value under the `usage` key of a dict usage record. */
  datatype Nested =
    | NoNested                  // no `usage` key
    | NestedDict(total: Slot)   // a dict, with its `total_tokens` entry
    | NestedNotDict             // `None` or any other non-dict value

  /** A usage record (`models_usage`): a dict, or an object such as a
      `RequestUsage`. `otherKeys` says whether the dict has keys besides
      `total_tokens` and `usage` (it decides whether the dict is empty). */
  datatype Usage =
    | DictUsage(total: Slot, nested: Nested, otherKeys: bool)
    | ObjUsage(prompt: Slot, completion: Slot, total: Slot)

  /** Python truthiness of a usage record: a dict is truthy when it has a
      key, an object always is. */
  predicate UsageTruthy(u: Usage) {
    match u
    case DictUsage(total, nested, otherKeys) => !total.Missing? || !nested.NoNested? || otherKeys
    case ObjUsage(_, _, _) => true
  }

  /** One message of a run; `usage` is `None` when the attribute is missing or `None`. */
  datatype Message = Message(content: Field, usage: Option<Usage>)

  /** The `messages` attribute of a result: missing, `None`, or a list. */
  datatype MessageList = NoAttr | NoneAttr | Listed(items: seq<Message>)

  /** The object `agent.run` returns. `usage` is `None` when `models_usage`
      is missing or `None` (both are falsy); `repr` is `str(result)`. */
  datatype StageResult = StageResult(
    content: Field,
    messages: MessageList,
    usage: Option<Usage>,
    repr: string)

  /** `hasattr(result, "messages") and result.messages`: a non-empty list. */
  predicate HasMessages(r: StageResult) {
    r.messages.Listed? && r.messages.items != []
  }

  /** The awaited `agent.run(...)`: it raises, or it returns a result. */
  datatype Invocation = Raised | Returned(result: StageResult)

  /** What a stage function returns: the `(text, tokens)` pair of its normal
      path, or the bare string of its failure path. `tokens` is `None` when
      the token extractor hands back Python's `None`. */
  datatype StageOutput = Pair(text: string, tokens: Option<int>) | Bare(text: string)

  function Last<T>(s: seq<T>): T
    requires |s| > 0
  {
    s[|s| - 1]
  }
}
