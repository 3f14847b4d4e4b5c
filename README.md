# Verified model of the research / analysis / summary pipeline's response handling

The pipeline runs three LLM-backed stages in sequence (research, analysis,
summary). Everything an LLM or a web API does is outside this model. What is
modelled is the sequential, library-free logic around those calls:

- **Token-usage extraction** (`extract_token_usage`): the response of an agent
  run is loosely typed. Its usage metadata sits on the result or on each
  message. It is a dict (flat `total_tokens`, or nested `usage.total_tokens`)
  or an object (`prompt_tokens`, `completion_tokens`, `total_tokens`). The
  extractor turns all of this into one count and never raises.
- **Search-result shaping** (`tavily_search`, `web_search`): an already-parsed
  `results` list is cut to `results[:num]`. `url` is renamed to `link`, and
  `content` is cut to 400 characters as `snippet`. The tool answers `"[]"`
  for an empty list. The agent gets the remote adapters when there are any,
  and the local `web_search` tool otherwise.
- **Stage output handling** (`run_research`, `run_analysis`, `run_summary`):
  each stage picks the field that holds the text, each with its own priority.
  It rewrites escape sequences, strips the text and pairs it with the token
  count. On any exception it returns a bare fallback string instead.

Python's duck typing is made explicit. Every probed attribute is a slot that
is missing, `None`, or holds a value (`Responses.Field`, `Responses.Slot`,
`Responses.MessageList`).
Python truthiness is a predicate. Every `try`/`except` is an explicit
outcome: `Wrappers.Attempt`, `TokenTracker.Reading`, or the
`Pair`/`Bare` cases of `Responses.StageOutput`. `str.strip`, `str.replace`,
`in` and slicing are defined on `seq<char>` in `PyBuiltins`, following
CPython's rules. `strip()` removes the characters `str.isspace()` accepts.
`replace` makes a left-to-right, non-overlapping scan. `s[:n]` with a
negative `n` counts from the end.

Modules, one per source file plus shared parts:

| file | module | models |
|---|---|---|
| wrappers.dfy | Wrappers | `Option`, `Attempt` (a value, or an exception caught by a surrounding `try`) |
| py_builtins.dfy | PyBuiltins | `str.isspace`, `strip`, `replace`, `in`, `s[:n]` |
| responses.dfy | Responses | the response object, usage records, messages, stage outputs |
| token_tracker.dfy | TokenTracker | utils/token_tracker.py |
| cleanup.dfy | Cleanup | the rewrite shared by the research and analysis stages |
| research_agent.dfy | ResearchAgent | agents/research_agent.py |
| analysis_agent.dfy | AnalysisAgent | agents/analysis_agent.py |
| summary_agent.dfy | SummaryAgent | agents/summary_agent.py |

Where the code does something other than its annotations suggest, the model
follows the code:

- `extract_token_usage` is annotated `-> int` (utils/token_tracker.py:6), but it
  returns Python's `None` when the top-level usage is an object whose
  `total_tokens` attribute is `None` and whose prompt and completion counts
  are not `None`: that value is assigned without error and
  returned (`TokenTracker.NoneResult`). An integer result is non-negative when
  no count is negative (`TokenTracker.NonNegative`).
- Its `except` branch (utils/token_tracker.py:50-51) only logs, and line 53
  returns whatever `total_tokens` held when the exception hit. In the
  per-message loop that is the sum accumulated so far
  (`TokenTracker.FailureKeepsPrefix`), not 0.
- For object usage, the default `prompt_tokens + completion_tokens` of
  `getattr` (utils/token_tracker.py:28) is evaluated before the call. So a
  `None` prompt or completion count raises even when `total_tokens` is
  present (`TokenTracker.ReadUsage`).
- `run_research`, `run_analysis` and `run_summary` are annotated `-> str`
  (agents/research_agent.py:79, agents/analysis_agent.py:15,
  agents/summary_agent.py:31). On success they return a `(text, tokens)` pair
  (agents/research_agent.py:100, agents/analysis_agent.py:39,
  agents/summary_agent.py:70). Their `except` branches return a bare string:
  `"[]"`, `"{}"` or the failure report (agents/research_agent.py:104,
  agents/analysis_agent.py:43, agents/summary_agent.py:74-79). The model
  keeps the two shapes apart (`Responses.StageOutput`).

## Model

| member | source | states |
|---|---|---|
| TokenTracker.ReadUsage | utils/token_tracker.py:17-28 | A dict record gives its truthy `total_tokens`. Otherwise it gives a truthy nested `usage.total_tokens`, else 0, and raises when `usage` is not a dict. An object record raises exactly when prompt or completion is `None`. Otherwise it gives `total_tokens` when present, else prompt + completion with 0 defaults. |
| TokenTracker.TokenUsage | utils/token_tracker.py:6-53 | The specification of the extractor: the top-level reading when that usage is truthy (0 for a read that raises), else the loop's accumulation over non-empty messages, else 0. Its contract: the result is `None` exactly when the top-level usage reads as `None`, 0 when reading the top-level usage raises (a dict whose `usage` entry is not a dict, or an object with a `None` prompt or completion count, whose eager `+` default raises), and 0 without any usage; `MessagesSum`, `FailureKeepsPrefix` and `NoneResult` state the rest. |
| TokenTracker.ExtractTokenUsage | utils/token_tracker.py:6-53 | The method, with its in-place accumulator loop over the messages, returns exactly the value the specification `TokenUsage` defines. |
| TokenTracker.DirectDictTotal | utils/token_tracker.py:14-23 | Top-level dict usage with a truthy `total_tokens = N` yields N, whatever the messages hold. |
| TokenTracker.DirectDictFallback | utils/token_tracker.py:18-23 | For a non-empty top-level dict whose `total_tokens` is missing, 0 or None: the result is the truthy nested `usage.total_tokens`, else 0. A non-dict `usage` entry also gives 0. |
| TokenTracker.DirectObjectCount | utils/token_tracker.py:24-28 | Object usage without `total_tokens` yields prompt + completion, each defaulting to 0. With an int `total_tokens` it yields that int. |
| TokenTracker.DirectPrecedence | utils/token_tracker.py:14-31 | When top-level usage is truthy, replacing the messages does not change the result. |
| TokenTracker.MessagesSum | utils/token_tracker.py:31-46 | Without truthy top-level usage, and with no failing read, the loop's result equals the plain in-order sum (`CountedSum`) over the messages with truthy usage. |
| TokenTracker.FailureKeepsPrefix | utils/token_tracker.py:32-53 | When message k is the first whose read or `+=` raises, the result is the sum over messages 0..k-1. |
| TokenTracker.NoUsageZero | utils/token_tracker.py:11-53 | A result with no truthy usage, on itself or on any message, yields 0. |
| TokenTracker.NonNegative | utils/token_tracker.py:11-53 | If no usage record holds a negative count, an integer result is non-negative. |
| TokenTracker.NoneResult | utils/token_tracker.py:24-28 | The extractor returns `None` if and only if the top-level usage is an object with `total_tokens` None and non-None prompt and completion counts. |
| TokenTracker.TwoMessages | utils/token_tracker.py:31-46 | Two messages with dict usage 3 and 5 total 8. |
| Cleanup.NewlineCleanup | agents/research_agent.py:97 | The two `replace` passes followed by `strip()`. Its contract: the result has no leading or trailing whitespace; `NewlineCleanupSpec` and `PlainTextOnlyStripped` state the rest. |
| Cleanup.ReplacesMatchReference | agents/research_agent.py:97 | The two `replace` passes equal a one-pass rewrite. Backslash-`n` becomes a newline, any other backslash is dropped, and every other character is kept. |
| Cleanup.NewlineCleanupSpec | agents/research_agent.py:97 | The cleaned text is the stripped one-pass rewrite. It contains no backslash and has no leading or trailing whitespace. |
| Cleanup.NewlineCleanupIdempotent | agents/research_agent.py:97-100 | Cleaning twice equals cleaning once. |
| Cleanup.PlainTextOnlyStripped | agents/research_agent.py:97 | Text with no backslash is only stripped. |
| ResearchAgent.ChooseTools | agents/research_agent.py:57-61 | Non-empty adapters are the tool list unchanged. Otherwise the list is exactly the one `web_search` tool, so it is never empty. |
| ResearchAgent.ShapeItem | agents/research_agent.py:31-35 | A record is built exactly for a dict item whose `content` is missing or a string. Its `title` and `link` are the item's `title` and `url`, or None. `snippet` is the prefix of `content` of length min(400, len), or "" when `content` is missing. |
| ResearchAgent.Shaped | agents/research_agent.py:29-36 | Shapes every item in order, or fails when one item raises. Its contract: a successful shaping has one record per item; `ShapedPointwise` states the rest. |
| ResearchAgent.ShapedPointwise | agents/research_agent.py:29-36 | Shaping a list succeeds iff every item shapes. The output then has the same length, and entry k is item k's record. |
| ResearchAgent.SearchResults | agents/research_agent.py:18-39 | The list `tavily_search` returns: [] without a key, on a failed request or when shaping raises, else the shaped `results[:num]`. Its contract: [] without a key, on a failed request or for a reply without `results`, and never more than `num` or than the number of results; `RaisingItemEmpties` states the raising-item case and `SearchKeepsPrefixInOrder` the contents. |
| ResearchAgent.TavilySearch | agents/research_agent.py:16-39 | The method, with its append loop, returns exactly `SearchResults`. That is [] without a key, on a failed request or on any item that raises, and otherwise the shaped records of `results[:num]`. |
| ResearchAgent.MissingKeyNoResults | agents/research_agent.py:18-20 | A missing or empty API key yields [] whatever the HTTP reply. |
| ResearchAgent.RaisingItemEmpties | agents/research_agent.py:29-39 | With a key, one item of `results[:num]` that raises while it is shaped (not a dict, or a `content` that is `None` or not a string) makes the result [], and the records appended before it are dropped. |
| ResearchAgent.SearchKeepsPrefixInOrder | agents/research_agent.py:29-36 | For num >= 0 with no raising item: the results are the first min(num, len) items, in order, with title, `url` as link, and a 400-character snippet. |
| ResearchAgent.WebSearchReply | agents/research_agent.py:46 | The tool answers the literal `"[]"` iff the result list is empty. Otherwise it answers the JSON dump of exactly those results. |
| ResearchAgent.ResearchText | agents/research_agent.py:88-90 | Returns `content` when truthy, or `str(result)` when `content` is missing. For a falsy text on a result with a `messages` attribute, it takes the last message's content, and raises when `messages` is `None` or empty or the last message has no `content`. |
| ResearchAgent.RunResearch | agents/research_agent.py:81-104 | A string text is returned as the cleaned text, which has no backslash and is stripped, paired with `TokenUsage(result)`. Every other path returns the bare `"[]"`. |
| AnalysisAgent.AnalysisText | agents/analysis_agent.py:25-29 | Returns `content` if truthy. Otherwise it returns the last message's content if messages are non-empty and that content is truthy; it raises if that content is missing. Otherwise it returns `str(result)`. |
| AnalysisAgent.RunAnalysis | agents/analysis_agent.py:15-43 | A string text is returned cleaned (no backslash, stripped) with `TokenUsage(result)`, which does not depend on the text. A non-string text or a raise returns the bare `"{}"`. |
| SummaryAgent.SummaryText | agents/summary_agent.py:51-56 | Returns the last message's content when there are messages (it raises if that content is missing). Otherwise it returns `content` if the attribute exists, else `str(result)`. |
| SummaryAgent.PriorityReversed | agents/summary_agent.py:51-56 | With both a truthy `content` and a truthy last message, analysis picks `content` and summary picks the last message. |
| SummaryAgent.ReplacesMatchReference | agents/summary_agent.py:64 | The two `replace` passes equal a one-pass rewrite that turns backslash-`n` into a newline and backslash-`t` into a tab. |
| SummaryAgent.EscapeCleanup | agents/summary_agent.py:64 | The two `replace` passes followed by `strip()`. Its contract: the result has no leading or trailing whitespace; `EscapeCleanupSpec` states the rest. |
| SummaryAgent.EscapeCleanupSpec | agents/summary_agent.py:64 | The escape cleanup is the stripped one-pass rewrite and has no leading or trailing whitespace. |
| SummaryAgent.LiteralNewlineSplitsLines | agents/summary_agent.py:64 | Two backslash-free lines joined by a literal backslash-`n` come out joined by a real newline. |
| SummaryAgent.Stamp | agents/summary_agent.py:66-67 | Appends `"\n\nGenerated at: "` + now unless `Generated at:` already occurs. Its contract: the text is kept as a prefix, and it is unchanged exactly when it already contains the marker. |
| SummaryAgent.FinishSummary | agents/summary_agent.py:64-70 | The returned summary text has no leading or trailing whitespace. |
| SummaryAgent.FinishHasMarker | agents/summary_agent.py:66-67 | The returned summary text always contains `Generated at:`. |
| SummaryAgent.FinishKeepsMarkedText | agents/summary_agent.py:66 | A cleaned text that already contains `Generated at:` is returned unchanged. |
| SummaryAgent.FinishAppendsStamp | agents/summary_agent.py:66-70 | A cleaned text without the marker becomes text + `"\n\nGenerated at: "` + now, or just `"Generated at: "` + now when the text is empty. This holds for a timestamp that does not end in whitespace. |
| SummaryAgent.FailureReport | agents/summary_agent.py:74-79 | The failure report text. Its contract: the topic follows `"Topic: "` directly; `FailureReportContents` states the rest. |
| SummaryAgent.FailureReportContents | agents/summary_agent.py:74-79 | The failure report contains the topic, `=== RESEARCH SUMMARY ===` and `Generated at: <time>`. |
| SummaryAgent.RunSummary | agents/summary_agent.py:31-79 | A string text that decodes is unescaped, stamped and stripped. It contains the marker and is paired with `TokenUsage(result)`. Every other path returns the bare failure report. |

## Left out

- LLM invocation and agent construction (`agent.run`, `AssistantAgent`, `FunctionTool`, the model client): foreign framework calls. A run is the input `Responses.Invocation`: it raised, or it returned a `StageResult`.
- The HTTP request, `raise_for_status` and `r.json()` in `tavily_search`: network I/O. Their outcome is the input `ResearchAgent.HttpReply`. The query and the request payload are not modelled.
- `os.getenv` / `load_dotenv`: environment access. The search API key is a parameter.
- Remote tool (MCP) connection in utils/mcp_helper.py: network I/O. The adapter list it yields is the parameter of `ResearchAgent.ChooseTools`.
- Logging, including every `logger.*` call: side effects only. For that reason `extract_token_usage`'s `agent_name`, which only feeds the log message, has no counterpart in the model.
- `json.dumps(results, indent=2)`: library serialisation. `ResearchAgent.ToolReply.JsonDump` stands for its text.
- `text.encode("utf-8").decode("unicode_escape")`: library decoding. It is the function parameter `unescape` of `SummaryAgent.RunSummary`, with `None` for a decoding error.
- `datetime.now().strftime(...)`: clock. The two timestamps of `run_summary` are string parameters: one taken before the run, one for the failure report.
- Prompt construction in each stage: string formatting that only feeds the LLM.
- main.py orchestration: async glue that adds the three counts. Each stage's failure path returns a bare string, which main.py's pair unpacking does not handle. The model states what each stage returns and does not claim anything about the printed result.
- Async/await: every call is awaited in sequence, so there is no concurrency to model.
- Python values outside the modelled shapes are not modelled: a count that is a string or a float, a message `content` that is `bytes`, or a JSON `content` that is an array (which `[:400]` would slice). Usage counts are int or `None`, and other text values are `Other`, with their truthiness. Objects are always truthy, and an `Other` search `content` is assumed not to be sliceable.
- SummaryAgent.FinishAppendsStamp: states the appended form only for a timestamp that does not end in whitespace. `strftime("%Y-%m-%d %H:%M:%S")` always produces such a timestamp, and any other timestamp would be cut by the final `strip()`.
