/** The research stage: shaping of web-search results (`tavily_search`),
    the `web_search` tool's empty-result rule, the choice of tools, and the
    text selection and cleanup of `run_research`. */
module ResearchAgent {
  import opened Wrappers
  import opened PyBuiltins
  import opened Responses
  import opened Cleanup
  import opened TokenTracker

  /** A tool handed to the research agent: the local web-search tool or a
      remote adapter. */
  datatype Tool = WebSearchTool | RemoteTool(name: string)

  /** `tools = mcp_adapters if mcp_adapters else [search_tool()]`
      (an absent adapter list reads as the empty list). */
  function ChooseTools(adapters: seq<Tool>): (tools: seq<Tool>)
    ensures |tools| > 0
    ensures adapters != [] ==> tools == adapters
    ensures adapters == [] ==> tools == [WebSearchTool]
  {
    if adapters != [] then adapters else [WebSearchTool]
  }

  /** One entry of the parsed `results` array: a JSON object with optional
      `title`, `url` and `content` members, or some other JSON value. */
  datatype Item = ItemDict(title: Field, url: Field, content: Field) | NotDict

  /** One shaped result: `{"title": ..., "link": ..., "snippet": ...}`. */
  datatype SearchRecord = SearchRecord(title: Field, link: Field, snippet: string)

  /** The HTTP exchange: it failed (transport error, `raise_for_status`,
      undecodable body), or it produced a JSON object whose `results`
      member may be missing. */
  datatype HttpReply = RequestFailed | Parsed(results: Option<seq<Item>>)

  const SnippetLimit: nat := 400

  /** Shapes one item; `None` when building its record raises (`.get` on a
      non-object item, or slicing a `content` that is `None` or not a string). */
  function ShapeItem(it: Item): (r: Option<SearchRecord>)
    ensures r.Some? <==> it.ItemDict? && (it.content.Absent? || it.content.Str?)
    ensures r.Some? ==> r.value.title == GetOrNone(it.title) && r.value.link == GetOrNone(it.url)
    ensures r.Some? && it.content.Absent? ==> r.value.snippet == []
    ensures r.Some? && it.content.Str? ==>
      |r.value.snippet| == (if |it.content.s| < SnippetLimit then |it.content.s| else SnippetLimit)
      && r.value.snippet == it.content.s[..|r.value.snippet|]
  {
    match it
    case NotDict => None
    case ItemDict(title, url, content) =>
      if content.Absent? then Some(SearchRecord(GetOrNone(title), GetOrNone(url), []))
      else if content.Str? then Some(SearchRecord(GetOrNone(title), GetOrNone(url), SlicePrefix(content.s, SnippetLimit)))
      else None
  }

  /** Shapes every item, in order, or `None` when one of them raises. */
  function Shaped(items: seq<Item>): (r: Option<seq<SearchRecord>>)
    ensures r.Some? ==> |r.value| == |items|
    decreases |items|
  {
    if items == [] then Some([])
    else match ShapeItem(items[0])
      case None => None
      case Some(rec) =>
        match Shaped(items[1..])
        case None => None
        case Some(rest) => Some([rec] + rest)
  }

  lemma {:induction false} ShapedPointwise(items: seq<Item>)
    ensures Shaped(items).Some? <==> forall k :: 0 <= k < |items| ==> ShapeItem(items[k]).Some?
    ensures Shaped(items).Some? ==>
      |Shaped(items).value| == |items|
      && forall k :: 0 <= k < |items| ==> ShapeItem(items[k]) == Some(Shaped(items).value[k])
    decreases |items|
  {
    if items != [] {
      ShapedPointwise(items[1..]);
      if ShapeItem(items[0]).Some? && Shaped(items[1..]).Some? {
        var out := Shaped(items).value;
        assert out == [ShapeItem(items[0]).value] + Shaped(items[1..]).value;
        forall k | 0 <= k < |items| ensures ShapeItem(items[k]) == Some(out[k]) {
          if k > 0 {
            assert items[k] == items[1..][k - 1];
          }
        }
      } else if ShapeItem(items[0]).Some? {
        var k :| 0 <= k < |items[1..]| && ShapeItem(items[1..][k]).None?;
        assert items[1..][k] == items[k + 1];
      }
    }
  }

  predicate KeyPresent(apiKey: Option<string>) {
    apiKey.Some? && apiKey.value != []
  }

  /** The list `tavily_search(query, num)` returns: empty without an API key
      or when anything in the request or the shaping raises, otherwise the
      shaped records of `results[:num]`. */
  function SearchResults(apiKey: Option<string>, reply: HttpReply, num: int): (r: seq<SearchRecord>)
    ensures !KeyPresent(apiKey) || reply.RequestFailed? ==> r == []
    ensures KeyPresent(apiKey) && reply == Parsed(None) ==> r == []
    ensures num >= 0 ==> |r| <= num
    ensures reply.Parsed? && reply.results.Some? ==> |r| <= |reply.results.value|
  {
    if !KeyPresent(apiKey) then []
    else match reply
      case RequestFailed => []
      case Parsed(results) =>
        var items := if results.Some? then results.value else [];
        match Shaped(SlicePrefix(items, num))
        case None => []
        case Some(recs) => recs
  }

  /** `tavily_search`: after the key check and the request, a loop appends
      one record per item of `results[:num]`; an exception anywhere yields `[]`. */
  method TavilySearch(apiKey: Option<string>, reply: HttpReply, num: int) returns (results: seq<SearchRecord>)
    ensures results == SearchResults(apiKey, reply, num)
  {
    if !KeyPresent(apiKey) {
      return [];
    }
    if reply.RequestFailed? {
      return [];
    }
    var items := if reply.results.Some? then reply.results.value else [];
    var window := SlicePrefix(items, num);
    ShapedPointwise(window);
    results := [];
    var i := 0;
    while i < |window|
      invariant 0 <= i <= |window|
      invariant |results| == i
      invariant forall k :: 0 <= k < i ==> ShapeItem(window[k]) == Some(results[k])
    {
      var rec := ShapeItem(window[i]);
      if rec.None? {
        return [];
      }
      results := results + [rec.value];
      i := i + 1;
    }
    assert results == Shaped(window).value;
  }

  /** A missing or empty API key yields no results, whatever the reply. */
  lemma MissingKeyNoResults(apiKey: Option<string>, reply: HttpReply, num: int)
    requires !KeyPresent(apiKey)
    ensures SearchResults(apiKey, reply, num) == []
  {
  }

  /** One item of `results[:num]` that raises while it is shaped empties
      the whole result: the records appended before it are dropped. */
  lemma RaisingItemEmpties(apiKey: Option<string>, items: seq<Item>, num: int, k: int)
    requires KeyPresent(apiKey)
    requires 0 <= k < |SlicePrefix(items, num)| && ShapeItem(SlicePrefix(items, num)[k]).None?
    ensures SearchResults(apiKey, Parsed(Some(items)), num) == []
  {
    ShapedPointwise(SlicePrefix(items, num));
  }

  /** For `num >= 0`, when every item kept raises nothing, the results are
      the first `min(num, |items|)` items, in order, each with its title,
      its `url` as `link` and the first at most 400 characters of its
      `content` as `snippet`. */
  lemma SearchKeepsPrefixInOrder(apiKey: Option<string>, items: seq<Item>, num: int)
    requires KeyPresent(apiKey) && num >= 0
    requires forall k :: 0 <= k < |items| && k < num ==> ShapeItem(items[k]).Some?
    ensures var out := SearchResults(apiKey, Parsed(Some(items)), num);
      |out| == (if num <= |items| then num else |items|)
      && forall k :: 0 <= k < |out| ==>
           items[k].ItemDict?
           && out[k].title == GetOrNone(items[k].title)
           && out[k].link == GetOrNone(items[k].url)
           && (items[k].content.Absent? ==> out[k].snippet == [])
           && (items[k].content.Str? ==> out[k].snippet == SlicePrefix(items[k].content.s, SnippetLimit))
  {
    var window := SlicePrefix(items, num);
    ShapedPointwise(window);
    forall k | 0 <= k < |window| ensures ShapeItem(window[k]).Some? {
      assert window[k] == items[k];
    }
    var out := SearchResults(apiKey, Parsed(Some(items)), num);
    forall k | 0 <= k < |out|
      ensures items[k].ItemDict? && ShapeItem(items[k]) == Some(out[k])
    {
      assert window[k] == items[k];
    }
  }

  /** What the `web_search` tool hands back: a literal string, or
      `json.dumps(records, indent=2)`, whose text is not modelled. */
  datatype ToolReply = Literal(text: string) | JsonDump(records: seq<SearchRecord>)

  /** `json.dumps(results, indent=2) if results else "[]"` */
  function WebSearchReply(results: seq<SearchRecord>): (r: ToolReply)
    ensures r.Literal? <==> results == []
    ensures r.Literal? ==> r.text == "[]"
    ensures r.JsonDump? ==> r.records == results
  {
    if results != [] then JsonDump(results) else Literal("[]")
  }

  /** Text selection of `run_research`:
      `text = getattr(result, "content", str(result))`, and when that is
      falsy and the result has a `messages` attribute,
      `text = result.messages[-1].content` (which raises when `messages` is
      `None` or an empty list, or on a message without `content`). */
  function ResearchText(r: StageResult): (t: Attempt<Field>)
    ensures !r.content.Absent? && Truthy(r.content) ==> t == Ok(r.content)
    ensures r.content.Absent? && r.repr != [] ==> t == Ok(Str(r.repr))
    ensures r.messages.NoAttr? ==> t == Ok(if r.content.Absent? then Str(r.repr) else r.content)
    ensures !r.messages.NoAttr? && !Truthy(GetOrNone(r.content)) && !(r.content.Absent? && r.repr != []) ==>
      (t.Raises? <==> r.messages.NoneAttr? || r.messages.items == [] || Last(r.messages.items).content.Absent?)
      && (t.Ok? ==> r.messages.Listed? && t.value == Last(r.messages.items).content)
  {
    var text := if r.content.Absent? then Str(r.repr) else r.content;
    if !Truthy(text) && !r.messages.NoAttr? then
      if r.messages.NoneAttr? || r.messages.items == [] then Raises
      else
        var last := Last(r.messages.items).content;
        if last.Absent? then Raises else Ok(last)
    else Ok(text)
  }

  /** The research failure path returns the bare string `"[]"`. */
  const ResearchFallback: string := "[]"

  /** `run_research` after `agent.run`: a string text is cleaned and
      returned stripped with the token count; anything that raises (the
      run itself, the selection, `.strip()` on a non-string) yields the
      bare fallback. */
  function RunResearch(call: Invocation): (out: StageOutput)
    ensures out.Bare? ==> out.text == ResearchFallback
    ensures out.Pair? <==> call.Returned? && ResearchText(call.result).Ok? && ResearchText(call.result).value.Str?
    ensures out.Pair? ==>
      out.text == NewlineCleanup(ResearchText(call.result).value.s)
      && Backslash !in out.text && IsStripped(out.text)
      && out.tokens == TokenUsage(call.result)
  {
    match call
    case Raised => Bare(ResearchFallback)
    case Returned(result) =>
      match ResearchText(result)
      case Raises => Bare(ResearchFallback)
      case Ok(text) =>
        var tokens := TokenUsage(result);
        if text.Str? then
          var cleaned := NewlineCleanup(text.s);
          NewlineCleanupSpec(text.s);
          assert Strip(cleaned) == cleaned;
          Pair(Strip(cleaned), tokens)
        else Bare(ResearchFallback)
  }
}
