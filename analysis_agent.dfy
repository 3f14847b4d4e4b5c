/** The analysis stage: text selection, cleanup and fallback of `run_analysis`. */
module AnalysisAgent {
  import opened Wrappers
  import opened PyBuiltins
  import opened Responses
  import opened Cleanup
  import opened TokenTracker

  /** Text selection of `run_analysis`: `content` when truthy, else the last
      message's content when there are messages (raising when that message
      has no `content`), and `str(result)` when the text is still falsy. */
  function AnalysisText(r: StageResult): (t: Attempt<Field>)
    ensures Truthy(r.content) ==> t == Ok(r.content)
    ensures !Truthy(r.content) && !HasMessages(r) ==> t == Ok(Str(r.repr))
    ensures !Truthy(r.content) && HasMessages(r) ==>
      var last := Last(r.messages.items).content;
      (last.Absent? ==> t.Raises?)
      && (Truthy(last) ==> t == Ok(last))
      && (!last.Absent? && !Truthy(last) ==> t == Ok(Str(r.repr)))
    ensures t.Ok? ==> Truthy(t.value) || t.value == Str(r.repr)
  {
    var text := GetOrNone(r.content);
    if !Truthy(text) && HasMessages(r) then
      var last := Last(r.messages.items).content;
      if last.Absent? then Raises
      else if !Truthy(last) then Ok(Str(r.repr))
      else Ok(last)
    else if !Truthy(text) then Ok(Str(r.repr))
    else Ok(text)
  }

  /** The analysis failure path returns the bare string `"{}"`. */
  const AnalysisFallback: string := "{}"

  /** `run_analysis` after `agent.run`: a string text is cleaned and returned
      with the token count, which does not depend on the text; anything that
      raises (the run, the selection, `.strip()` on a non-string) yields the
      bare fallback. */
  function RunAnalysis(call: Invocation): (out: StageOutput)
    ensures out.Bare? ==> out.text == AnalysisFallback
    ensures out.Pair? <==> call.Returned? && AnalysisText(call.result).Ok? && AnalysisText(call.result).value.Str?
    ensures out.Pair? ==>
      out.text == NewlineCleanup(AnalysisText(call.result).value.s)
      && Backslash !in out.text && IsStripped(out.text)
      && out.tokens == TokenUsage(call.result)
  {
    match call
    case Raised => Bare(AnalysisFallback)
    case Returned(result) =>
      match AnalysisText(result)
      case Raises => Bare(AnalysisFallback)
      case Ok(text) =>
        var tokens := TokenUsage(result);
        if text.Str? then
          var cleaned := NewlineCleanup(text.s);
          NewlineCleanupSpec(text.s);
          assert Strip(cleaned) == cleaned;
          Pair(Strip(cleaned), tokens)
        else Bare(AnalysisFallback)
  }
}
