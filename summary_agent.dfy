/** The summary stage: text selection, escape cleanup, the `Generated at:`
    stamp and the failure report of `run_summary`. */
module SummaryAgent {
  import opened Wrappers
  import opened PyBuiltins
  import opened Responses
  import opened TokenTracker
  import AnalysisAgent

  const Marker: string := "Generated at:"
  const Header: string := "=== RESEARCH SUMMARY ==="
  const FailureLine: string := "Summary generation failed due to an internal error.\n"

  /** Text selection of `run_summary`: the last message's content when there
      are messages (raising when it has no `content`), else the `content`
      attribute when present, else `str(result)`. */
  function SummaryText(r: StageResult): (t: Attempt<Field>)
    ensures HasMessages(r) ==>
      (t.Raises? <==> Last(r.messages.items).content.Absent?)
      && (t.Ok? ==> t.value == Last(r.messages.items).content)
    ensures !HasMessages(r) && !r.content.Absent? ==> t == Ok(r.content)
    ensures !HasMessages(r) && r.content.Absent? ==> t == Ok(Str(r.repr))
  {
    if HasMessages(r) then
      var last := Last(r.messages.items).content;
      if last.Absent? then Raises else Ok(last)
    else if !r.content.Absent? then Ok(r.content)
    else Ok(Str(r.repr))
  }

  /** Where both a truthy `content` and a message with truthy content are
      present, the analysis stage takes `content` and the summary stage the
      last message: the two priorities are reversed. */
  lemma PriorityReversed(r: StageResult)
    requires Truthy(r.content) && HasMessages(r)
    requires Truthy(Last(r.messages.items).content)
    ensures AnalysisAgent.AnalysisText(r) == Ok(r.content)
    ensures SummaryText(r) == Ok(Last(r.messages.items).content)
    ensures r.content != Last(r.messages.items).content ==> AnalysisAgent.AnalysisText(r) != SummaryText(r)
  {
  }

  /** `text.replace("\\n", "\n").replace("\\t", "\t").strip()`, applied to
      the text after `unicode_escape` decoding. */
  function EscapeCleanup(decoded: string): (r: string)
    ensures IsStripped(r)
  {
    Strip(Replace(Replace(decoded, "\\n", "\n"), "\\t", "\t"))
  }

  /** Reference definition in one left-to-right pass: backslash-`n` becomes
      a newline, backslash-`t` a tab, everything else is kept. */
  function NewlineTabUnescaped(s: string): string
    decreases |s|
  {
    if s == [] then []
    else if |s| >= 2 && s[0] == '\\' && s[1] == 'n' then "\n" + NewlineTabUnescaped(s[2..])
    else if |s| >= 2 && s[0] == '\\' && s[1] == 't' then "\t" + NewlineTabUnescaped(s[2..])
    else [s[0]] + NewlineTabUnescaped(s[1..])
  }

  /** The two `replace` passes compute the one-pass reference. */
  lemma {:induction false} ReplacesMatchReference(s: string)
    ensures Replace(Replace(s, "\\n", "\n"), "\\t", "\t") == NewlineTabUnescaped(s)
    decreases |s|
  {
    if s == [] {
    } else if |s| >= 2 && s[0] == '\\' && s[1] == 'n' {
      assert s[..2] == "\\n";
      ReplaceConsNoMatch('\n', Replace(s[2..], "\\n", "\n"), "\\t", "\t");
      ReplacesMatchReference(s[2..]);
    } else if |s| >= 2 && s[0] == '\\' && s[1] == 't' {
      assert s[..2] != "\\n";
      var rest := s[2..];
      assert s[1..] == ['t'] + rest;
      ReplaceConsNoMatch('t', rest, "\\n", "\n");
      var first := Replace(s, "\\n", "\n");
      assert first == ['\\', 't'] + Replace(rest, "\\n", "\n");
      assert first[..2] == "\\t" && first[2..] == Replace(rest, "\\n", "\n");
      ReplacesMatchReference(rest);
    } else if s[0] == '\\' {
      if |s| < 2 {
        assert Replace(s, "\\n", "\n") == s;
      } else {
        assert s[..2] != "\\n";
        var tail := Replace(s[1..], "\\n", "\n");
        assert Replace(s, "\\n", "\n") == ['\\'] + tail;
        ReplaceHead(s[1..], "\\n", "\n");
        assert ['\\'] + tail == ['\\'] + ([tail[0]] + tail[1..]);
        assert (['\\'] + tail)[..2] == ['\\', tail[0]];
        assert (['\\'] + tail)[1..] == tail;
        ReplacesMatchReference(s[1..]);
      }
    } else {
      assert s == [s[0]] + s[1..];
      ReplaceConsNoMatch(s[0], s[1..], "\\n", "\n");
      ReplaceConsNoMatch(s[0], Replace(s[1..], "\\n", "\n"), "\\t", "\t");
      ReplacesMatchReference(s[1..]);
    }
  }

  /** The escape cleanup is the stripped one-pass unescaping of its input. */
  lemma EscapeCleanupSpec(decoded: string)
    ensures EscapeCleanup(decoded) == Strip(NewlineTabUnescaped(decoded))
    ensures IsStripped(EscapeCleanup(decoded))
  {
    ReplacesMatchReference(decoded);
  }

  lemma {:induction false} UnescapedPlainPrefix(a: string, t: string)
    requires '\\' !in a
    ensures NewlineTabUnescaped(a + t) == a + NewlineTabUnescaped(t)
    decreases |a|
  {
    if a == [] {
      assert a + t == t;
    } else {
      var s := a + t;
      assert a[0] in a;
      assert s[0] == a[0] && s[1..] == a[1..] + t;
      UnescapedPlainPrefix(a[1..], t);
      calc {
        NewlineTabUnescaped(s);
        [a[0]] + NewlineTabUnescaped(a[1..] + t);
        [a[0]] + (a[1..] + NewlineTabUnescaped(t));
        { assert a == [a[0]] + a[1..]; }
        a + NewlineTabUnescaped(t);
      }
    }
  }

  /** Two lines joined by a literal backslash-`n` (as in `Line1\nLine2`)
      come out as two physical lines. */
  lemma LiteralNewlineSplitsLines(a: string, b: string)
    requires '\\' !in a && '\\' !in b
    ensures EscapeCleanup(a + "\\n" + b) == Strip(a + "\n" + b)
  {
    assert a + ("\n" + b) == a + "\n" + b;
    var t := "\\n" + b;
    assert a + "\\n" + b == a + t;
    EscapeCleanupSpec(a + t);
    UnescapedPlainPrefix(a, t);
    assert t[0] == '\\' && t[1] == 'n' && t[2..] == b;
    assert NewlineTabUnescaped(t) == "\n" + NewlineTabUnescaped(b);
    UnescapedPlainPrefix(b, []);
    assert b + [] == b;
  }


  /** The line the summary stage appends: `Generated at: <now>`. */
  function StampLine(now: string): string
  {
    Marker + (" " + now)
  }

  /** `if "Generated at:" not in text: text += "\n\nGenerated at: " + now` */
  function Stamp(text: string, now: string): (r: string)
    ensures |text| <= |r| && r[..|text|] == text
    ensures r == text <==> IsInfix(Marker, text)
  {
    if IsInfix(Marker, text) then text else text + "\n\n" + StampLine(now)
  }

  /** The text `run_summary` returns for a decoded model output. */
  function FinishSummary(decoded: string, now: string): (out: string)
    ensures IsStripped(out)
  {
    Strip(Stamp(EscapeCleanup(decoded), now))
  }

  /** A word followed by anything, appended to anything, is an infix. */
  lemma WordInAppended(w: string, x: string, y: string)
    ensures IsInfix(w, x + (w + y))
  {
    InfixOfConcat([], w, y);
    assert [] + w + y == w + y;
    InfixExtendLeft(w, x, w + y);
  }

  lemma StampHasMarker(text: string, now: string)
    ensures IsInfix(Marker, Stamp(text, now))
  {
    if !IsInfix(Marker, text) {
      WordInAppended(Marker, text + "\n\n", " " + now);
    }
  }

  /** The finished summary always carries the `Generated at:` marker. */
  lemma FinishHasMarker(decoded: string, now: string)
    ensures IsInfix(Marker, FinishSummary(decoded, now))
  {
    var stamped := Stamp(EscapeCleanup(decoded), now);
    StampHasMarker(EscapeCleanup(decoded), now);
    assert |Marker| > 0 && !IsSpace(Marker[0]) && !IsSpace(Marker[|Marker| - 1]);
    StripKeepsInfix(Marker, stamped);
  }

  /** A cleaned text that already holds the marker is returned as it is. */
  lemma FinishKeepsMarkedText(decoded: string, now: string)
    requires IsInfix(Marker, EscapeCleanup(decoded))
    ensures FinishSummary(decoded, now) == EscapeCleanup(decoded)
  {
  }

  /** A cleaned text without the marker gets `\n\nGenerated at: <now>`
      appended (the blank line disappears when the text is empty), given a
      timestamp that does not end in whitespace. */
  lemma FinishAppendsStamp(decoded: string, now: string)
    requires !IsInfix(Marker, EscapeCleanup(decoded))
    requires |now| > 0 && !IsSpace(now[|now| - 1])
    ensures var text := EscapeCleanup(decoded);
      FinishSummary(decoded, now)
        == if text == [] then StampLine(now) else text + "\n\n" + StampLine(now)
  {
    var line := StampLine(now);
    assert |Marker| > 0 && !IsSpace(Marker[0]) && !IsSpace(Marker[|Marker| - 1]);
    assert line[0] == Marker[0] && line[|line| - 1] == now[|now| - 1];
    StripAppended(EscapeCleanup(decoded), line);
  }

  /** Stripping a stripped text followed by a blank line and a line that
      starts and ends with non-whitespace. */
  lemma StripAppended(text: string, line: string)
    requires IsStripped(text)
    requires |line| > 0 && !IsSpace(line[0]) && !IsSpace(line[|line| - 1])
    ensures Strip(text + "\n\n" + line) == if text == [] then line else text + "\n\n" + line
  {
    if text == [] {
      assert text + "\n\n" + line == "\n\n" + line;
      StripBlankLine(line);
    } else {
      assert IsStripped(text + "\n\n" + line);
    }
  }

  lemma StripBlankLine(line: string)
    requires |line| > 0 && !IsSpace(line[0]) && !IsSpace(line[|line| - 1])
    ensures Strip("\n\n" + line) == line
  {
    var t := ['\n'] + line;
    assert "\n\n" + line == ['\n'] + t;
    StripLeftSkipsSpace('\n', t);
    StripLeftSkipsSpace('\n', line);
    assert IsStripped(line);
  }

  /** The bare string of the summary failure path:
      `Topic: <topic>`, a blank line, the summary header, a line saying
      generation failed, and `Generated at: <time>`. */
  function FailureReport(topic: string, time: string): (r: string)
    ensures |"Topic: "| + |topic| <= |r| && r[|"Topic: "|..|"Topic: "| + |topic|] == topic
  {
    "Topic: " + topic + ReportTail(time)
  }

  function ReportTail(time: string): string
  {
    "\n\n" + Header + StampTail(time)
  }

  function StampTail(time: string): string
  {
    "\n" + FailureLine + (Marker + " " + time)
  }

  /** The failure report names the topic, carries the summary header and
      a `Generated at: <time>` line. */
  lemma FailureReportContents(topic: string, time: string)
    ensures IsInfix(topic, FailureReport(topic, time))
    ensures IsInfix(Header, FailureReport(topic, time))
    ensures IsInfix(Marker + " " + time, FailureReport(topic, time))
  {
    InfixOfConcat("Topic: ", topic, ReportTail(time));
    InfixOfConcat("\n\n", Header, StampTail(time));
    InfixExtendLeft(Header, "Topic: " + topic, ReportTail(time));
    var line := Marker + " " + time;
    InfixOfConcat("\n" + FailureLine, line, []);
    assert "\n" + FailureLine + line + [] == StampTail(time);
    InfixExtendLeft(line, "\n\n" + Header, StampTail(time));
    InfixExtendLeft(line, "Topic: " + topic, ReportTail(time));
  }

  /** `run_summary` after `agent.run`. `unescape` stands for
      `s.encode("utf-8").decode("unicode_escape")` (`None` when decoding
      raises); `now` is the timestamp taken before the run and `reportTime`
      the one the failure report takes. A string text is unescaped, cleaned,
      stamped and returned with the token count; anything that raises yields
      the bare failure report. */
  function RunSummary(call: Invocation, topic: string, unescape: string -> Option<string>,
                      now: string, reportTime: string): (out: StageOutput)
    ensures out.Bare? ==> out.text == FailureReport(topic, reportTime)
    ensures out.Pair? <==>
      call.Returned? && SummaryText(call.result).Ok? && SummaryText(call.result).value.Str?
      && unescape(SummaryText(call.result).value.s).Some?
    ensures out.Pair? ==>
      out.text == FinishSummary(unescape(SummaryText(call.result).value.s).value, now)
      && IsInfix(Marker, out.text) && IsStripped(out.text)
      && out.tokens == TokenUsage(call.result)
  {
    match call
    case Raised => Bare(FailureReport(topic, reportTime))
    case Returned(result) =>
      match SummaryText(result)
      case Raises => Bare(FailureReport(topic, reportTime))
      case Ok(text) =>
        var tokens := TokenUsage(result);
        if text.Str? && unescape(text.s).Some? then
          var decoded := unescape(text.s).value;
          FinishHasMarker(decoded, now);
          Pair(FinishSummary(decoded, now), tokens)
        else Bare(FailureReport(topic, reportTime))
  }
}
