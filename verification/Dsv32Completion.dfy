/** What the completion parser accepts, and what it gives back for a rendered turn. */
module Dsv32Completion {
  import opened Wrappers
  import opened Text
  import opened Dsv32Encoder
  import opened Dsv32Parser
  import opened Dsv32RoundTrip

  /** An assistant turn in print, ending with `end`. */
  function Turn(p: Parsed, thinking: bool, end: string): string {
    (if thinking then p.reasoning + THINK_END else "") + p.content + ToolBlock(p.calls) + end
  }

  // ---- Everything parsed is clean ----

  lemma ReadFree(index: nat, text: string, stops: seq<string>, s: string)
    requires index <= |text| && s in stops && s != ""
    ensures !Contains(ReadUntil(index, text, stops).content, s)
  {
    hide ReadUntil, FreeOf;
    var r := ReadUntil(index, text, stops);
    ReadSpec(index, text, stops);
    if Contains(r.content, s) {
      ContainedNotFree(r.content, s, text[index + |r.content|..]);
    }
  }

  lemma SliceClean(s: string, i: nat, j: nat, token: string)
    requires i <= j <= |s| && !Contains(s, token)
    ensures !Contains(s[i..j], token)
  {
    assert s == s[..i] + s[i..j] + s[j..];
    ContainsMono(s[..i], s[i..j], s[j..], token);
  }

  lemma LazyEarlier(s: string, tail: string, from: nat, later: nat)
    requires from <= later <= |s| && LazyUpTo(s, tail, later).Some?
    ensures LazyUpTo(s, tail, from).Some?
  {
    assert TailAt(s, tail, LazyUpTo(s, tail, later).value);
  }

  /** A marker inside the text before a matched marker would itself have matched. */
  lemma MarkerShifts(s: string, k: nat, b: bool, i: nat)
    requires |KEY| <= k <= |s| && (MarkerAt(s, k, true) || MarkerAt(s, k, false))
    requires OccursAt(s[|KEY|..k], if b then IS_TRUE else IS_FALSE, i)
    ensures MarkerAt(s, |KEY| + i, b)
  {
    hide KEY, IS_TRUE, IS_FALSE, VALUE_TAIL, LazyUpTo;
    var m, key := if b then IS_TRUE else IS_FALSE, s[|KEY|..k];
    var at := k + |if MarkerAt(s, k, true) then IS_TRUE else IS_FALSE|;
    LazyEarlier(s, VALUE_TAIL, |KEY| + i + |m|, at);
    SliceOfSlice(s, |KEY|, k, i, i + |m|);
  }

  lemma NoMarkerBefore(s: string, k: nat, b: bool)
    requires |KEY| <= k <= |s| && FirstMarker(s, |KEY|) == Some(k)
    ensures !Contains(s[|KEY|..k], if b then IS_TRUE else IS_FALSE)
  {
    MarkerNotEmpty(b);
    hide KEY, IS_TRUE, IS_FALSE, MarkerAt, FirstMarker;
    var m, key := if b then IS_TRUE else IS_FALSE, s[|KEY|..k];
    if Contains(key, m) {
      var i := Find(key, m, 0).value;
      MarkerShifts(s, k, b, i);
    }
  }

  lemma MarkerNotEmpty(b: bool)
    ensures |if b then IS_TRUE else IS_FALSE| > 0
  {
  }

  lemma MatchedParamClean(s: string)
    requires MatchParam(s).Some? && !Contains(s, PARAM_END)
    ensures CleanArg(MatchParam(s).value)
  {
    var k := FirstMarker(s, |KEY|).value;
    NoMarkerBefore(s, k, true);
    NoMarkerBefore(s, k, false);
    hide KEY, IS_TRUE, IS_FALSE, VALUE_TAIL, PARAM_END, Contains;
    SliceClean(s, |KEY|, k, PARAM_END);
    var v := k + |if MarkerAt(s, k, true) then IS_TRUE else IS_FALSE|;
    SliceClean(s, v, LazyUpTo(s, VALUE_TAIL, v).value, PARAM_END);
  }

  lemma {:induction false} SpaceSkipped(s: string)
    ensures |SkipSpace(s)| <= |s| && SkipSpace(s) == s[|s| - |SkipSpace(s)|..]
  {
    if s != "" && IsSpace(s[0]) {
      SpaceSkipped(s[1..]);
    }
  }

  lemma MatchedNameClean(s: string, token: string)
    requires MatchName(s).Some? && !Contains(s, token)
    ensures !Contains(MatchName(s).value, token)
  {
    hide NAME, NAME_TAIL, Contains;
    var t := SkipSpace(s);
    SpaceSkipped(s);
    var i, r := |s| - |t|, LazyUpTo(t, NAME_TAIL, |NAME|).value;
    assert t == s[i..|s|];
    SliceOfSlice(s, i, |s|, |NAME|, r);
    SliceClean(s, i + |NAME|, i + r, token);
  }

  lemma ParsedParamClean(index: nat, text: string, args: seq<Arg>)
    requires index <= |text| && CleanArgs(args) && ParseParam(index, text, args).Ok?
    ensures CleanArgs(ParseParam(index, text, args).value.args)
  {
    assert PARAM_END != "";
    hide MatchParam, CleanArg, PARAM_END, ReadUntil;
    var r := ReadUntil(index, text, [PARAM_END]);
    ReadFree(index, text, [PARAM_END], PARAM_END);
    MatchedParamClean(r.content);
    var a := MatchParam(r.content).value;
    forall i | 0 <= i < |args| ensures args[i].key != a.key {
      assert args[i] in args && args[i].key in Keys(args);
    }
  }

  lemma {:induction false} ParsedParamsClean(index: nat, text: string, args: seq<Arg>, stop: Option<string>)
    requires index <= |text| && CleanArgs(args) && ParseParams(index, text, args, stop).Ok?
    ensures CleanArgs(ParseParams(index, text, args, stop).value.args)
    decreases |text| - index
  {
    hide ParseParam, CleanArgs;
    if stop == Some(PARAM) {
      ParsedParamClean(index, text, args);
      var step := ParseParam(index, text, args).value;
      if step.stop.Some? { ParsedParamsClean(step.index, text, step.args, step.stop); }
    }
  }

  ghost predicate AllClean(calls: seq<ToolCall>) {
    forall c :: c in calls ==> CleanCall(c)
  }

  lemma ParsedCallClean(index: nat, text: string, calls: seq<ToolCall>)
    requires index < |text| && AllClean(calls) && ParseCall(index, text, calls).Ok?
    ensures AllClean(ParseCall(index, text, calls).value.0.calls)
  {
    assert PARAM != "" && INVOKE_END != "";
    hide MatchName, ReadUntil, ParseParams, CleanArgs, PARAM, INVOKE, INVOKE_END, CALLS_END;
    var r1 := ReadUntil(index, text, [INVOKE, CALLS_END]);
    if r1.stop != Some(CALLS_END) {
      var r2 := ReadUntil(r1.next, text, [PARAM, INVOKE_END]);
      ReadFree(r1.next, text, [PARAM, INVOKE_END], PARAM);
      ReadFree(r1.next, text, [PARAM, INVOKE_END], INVOKE_END);
      MatchedNameClean(r2.content, PARAM);
      MatchedNameClean(r2.content, INVOKE_END);
      EmptyArgsClean();
      ParsedParamsClean(r2.next, text, [], r2.stop);
    }
  }

  lemma EmptyArgsClean()
    ensures CleanArgs([])
  {
  }

  lemma {:induction false} ParsedCallsClean(index: nat, text: string, stop: Option<string>, calls: seq<ToolCall>)
    requires index <= |text| && AllClean(calls) && ParseCalls(index, text, stop, calls).Ok?
    ensures AllClean(ParseCalls(index, text, stop, calls).value.calls)
    decreases |text| - index
  {
    hide ParseCall, AllClean;
    if index < |text| {
      ParsedCallClean(index, text, calls);
      var (step, done) := ParseCall(index, text, calls).value;
      if !done { ParsedCallsClean(step.index, text, step.stop, step.calls); }
    }
  }

  /** Whatever text is accepted, the message returned holds no special token, no stop token inside a name, key or
      value, and no repeated key. */
  lemma ParsedIsClean(text: string, thinking: bool)
    requires ParseMessage(text, thinking).Ok?
    ensures Clean(ParseMessage(text, thinking).value)
  {
    hide ReadUntil, ParseCalls, NoSpecialToken, CleanCall, THINK_END, CALLS, EOS;
    var index := if thinking then ReadUntil(0, text, [THINK_END, CALLS]).next else 0;
    var r := ReadUntil(index, text, [EOS, CALLS]);
    if r.stop == Some(CALLS) { ParsedCallsClean(r.next, text, None, []); }
  }

  // ---- Rendered turns ----

  lemma SummaryParses(index: nat, text: string, p: Parsed, end: string)
    requires index <= |text| && text[index..] == p.content + ToolBlock(p.calls) + end
    requires Clean(p) && (end == EOS || (end == "" && p.calls != []))
    ensures ParseSummary(index, text, p.reasoning) == Ok(p)
  {
    if p.calls == [] {
      PlainSummaryParses(index, text, p);
    } else {
      CallsBlock(p.calls, end);
      hide ParseSummary, Clean, EOS, CALLS, ToolBlock, CallsText;
      assert text[index..] == p.content + (ToolBlock(p.calls) + end);
      ToolSummaryParses(index, text, p, end);
    }
  }

  lemma PlainSummaryParses(index: nat, text: string, p: Parsed)
    requires index <= |text| && text[index..] == p.content + "" + EOS
    requires Clean(p) && p.calls == []
    ensures ParseSummary(index, text, p.reasoning) == Ok(p)
  {
    hide ReadUntil, NoSpecialToken, EOS, CALLS;
    TokensDiffer();
    PlainSummaryScans(index, text, p.content);
  }

  lemma ToolSummaryParses(index: nat, text: string, p: Parsed, end: string)
    requires index <= |text| && text[index..] == p.content + (CALLS + CallsText(p.calls, end))
    requires Clean(p) && (end == EOS || end == "")
    ensures ParseSummary(index, text, p.reasoning) == Ok(p)
  {
    hide CallsText, ReadUntil, ParseCalls, NoSpecialToken, CleanCall, EOS, CALLS, CALLS_END;
    var rest := CallsText(p.calls, end);
    ToolSummaryScans(index, text, p.content, rest);
    CallsParse(|text| - |rest|, text, None, [], p.calls, end);
    assert [] + p.calls == p.calls;
    EndScans(|text| - |end|, text, end);
  }

  lemma CallsBlock(calls: seq<ToolCall>, end: string)
    requires calls != []
    ensures ToolBlock(calls) + end == CALLS + CallsText(calls, end)
  {
    CallsRenderedAs(calls, end);
    hide CALLS, CALLS_END, CallsText, JoinLines, RenderCalls;
    Reassociate(CALLS, ">\n", JoinLines(RenderCalls(calls)), "\n", CALLS_END, end);
  }

  lemma Reassociate(a: string, b: string, c: string, d: string, e: string, f: string)
    ensures a + b + c + d + e + f == a + (b + c + d + (e + f))
  {
  }

  lemma PlainSummaryScans(index: nat, text: string, content: string)
    requires index <= |text| && text[index..] == content + "" + EOS && NoSpecialToken(content)
    ensures ReadUntil(index, text, [EOS, CALLS]) == Read(|text|, content, Some(EOS))
  {
    assert EOS + "" == EOS && CALLS != "" && EOS != "";
    CleanTextFree(content, EOS + "") by { assert CALLS[0] != EOS[0]; }
    Differ(CALLS, EOS, "", 0);
    hide EOS, CALLS, NoSpecialToken, Nearest;
    assert content + "" + EOS == content + EOS + "";
    ReadStep(index, text, [EOS, CALLS], content, EOS, "");
  }

  lemma ToolSummaryScans(index: nat, text: string, content: string, rest: string)
    requires index <= |text| && text[index..] == content + (CALLS + rest) && NoSpecialToken(content)
    ensures |rest| <= |text| && text[|text| - |rest|..] == rest
    ensures ReadUntil(index, text, [EOS, CALLS]) == Read(|text| - |rest|, content, Some(CALLS))
  {
    assert CALLS != "" && EOS != "";
    CleanTextFree(content, CALLS + rest);
    Differ(EOS, CALLS, rest, 0);
    hide EOS, CALLS, NoSpecialToken, Nearest;
    assert content + (CALLS + rest) == content + CALLS + rest;
    ReadStep(index, text, [EOS, CALLS], content, CALLS, rest);
  }

  lemma EndScans(index: nat, text: string, end: string)
    requires index <= |text| && text[index..] == end && (end == EOS || end == "")
    ensures var r := ReadUntil(index, text, [EOS]);
            r.content == "" && r.next == |text| && r.stop == if end == EOS then Some(EOS) else None
  {
    assert EOS != "";
    hide EOS, Nearest;
    if end == EOS {
      assert "" + EOS + "" == EOS && forall s :: FreeOf("", s, EOS + "");
      ReadStep(index, text, [EOS], "", EOS, "");
    } else {
      assert |text| == index;
    }
  }

  lemma ReasoningScans(text: string, reasoning: string, rest: string)
    requires text == reasoning + (THINK_END + rest) && NoSpecialToken(reasoning)
    ensures |rest| <= |text| && text[|text| - |rest|..] == rest
    ensures ReadUntil(0, text, [THINK_END, CALLS]) == Read(|text| - |rest|, reasoning, Some(THINK_END))
  {
    assert CALLS != "" && THINK_END != "";
    CleanTextFree(reasoning, THINK_END + rest) by { assert CALLS[0] != (THINK_END + rest)[0]; }
    Differ(CALLS, THINK_END, rest, 0);
    hide THINK_END, CALLS, NoSpecialToken, Nearest;
    assert text[0..] == reasoning + THINK_END + rest;
    ReadStep(0, text, [THINK_END, CALLS], reasoning, THINK_END, rest);
  }

  lemma TurnParses(p: Parsed, thinking: bool, end: string)
    requires Clean(p) && (thinking || p.reasoning == "") && (end == EOS || (end == "" && p.calls != []))
    ensures ParseMessage(Turn(p, thinking, end), thinking) == Ok(p)
  {
    hide ReadUntil, NoSpecialToken, CleanCall, THINK_END, CALLS, EOS, ToolBlock, ParseSummary;
    var text := Turn(p, thinking, end);
    var rest := p.content + ToolBlock(p.calls) + end;
    if thinking {
      assert text == p.reasoning + (THINK_END + rest);
      ReasoningScans(text, p.reasoning, rest);
      SummaryParses(|text| - |rest|, text, p, end);
    } else {
      assert text == rest && text[0..] == text;
      SummaryParses(0, text, p, end);
    }
  }

  /** Printing and parsing undo each other on exactly the clean messages. */
  lemma RoundTripIff(p: Parsed, thinking: bool)
    requires thinking || p.reasoning == ""
    ensures ParseMessage(Turn(p, thinking, EOS), thinking) == Ok(p) <==> Clean(p)
  {
    hide Clean, ParseMessage, Turn;
    if Clean(p) {
      TurnParses(p, thinking, EOS);
    } else if ParseMessage(Turn(p, thinking, EOS), thinking) == Ok(p) {
      ParsedIsClean(Turn(p, thinking, EOS), thinking);
    }
  }

  /** The message a reader expects back from the rendered turn at `index`. */
  function Expected(m: Message, thinking: bool): Parsed
    requires m.Assistant?
  {
    Parsed(OrEmpty(m.content), if thinking then OrEmpty(m.reasoning) else "", m.toolCalls)
  }

  /** Every assistant turn the encoder renders, in chat mode or in thinking mode after the last user turn, parses back
      to its reasoning, content and ordered tool calls exactly when it is clean. */
  lemma RenderedTurnParses(messages: seq<Message>, index: nat, mode: Mode)
    requires index < |messages| && messages[index].Assistant?
    requires RenderMessage(index, messages, mode).Ok?
    requires mode == Chat || index > LastUser(messages)
    ensures var p := Expected(messages[index], mode == Thinking);
            ParseMessage(RenderMessage(index, messages, mode).value, mode == Thinking) == Ok(p) <==> Clean(p)
  {
    hide THINK_END, EOS, ToolBlock, ParseMessage, Clean, RenderAssistant, Turn, LastUser, RenderTool, ToolsAndSchema, UserTurn;
    var m, thinking := messages[index], mode == Thinking;
    var p := Expected(m, thinking);
    RoundTripIff(p, thinking);
    AssistantInPrint(m, thinking);
  }

  lemma AssistantInPrint(m: Message, thinking: bool)
    requires m.Assistant? && RenderAssistant(m, thinking).Ok?
    ensures RenderAssistant(m, thinking).value == Turn(Expected(m, thinking), thinking, EOS)
  {
    hide THINK_END, EOS, ToolBlock;
  }

  /** The end-of-sentence token may be missing after a tool block and nowhere else. */
  lemma EndTokenOptionalIff(p: Parsed, thinking: bool)
    requires Clean(p) && (thinking || p.reasoning == "")
    ensures ParseMessage(Turn(p, thinking, ""), thinking) == Ok(p) <==> p.calls != []
  {
    if p.calls != [] {
      hide Clean, ParseMessage, Turn;
      TurnParses(p, thinking, "");
    } else {
      UnendedTextRejected(p, thinking);
    }
  }

  lemma UnendedTextRejected(p: Parsed, thinking: bool)
    requires Clean(p) && p.calls == []
    ensures ParseMessage(Turn(p, thinking, ""), thinking).Err?
  {
    var text := Turn(p, thinking, "");
    hide NoSpecialToken, THINK_END, EOS, CALLS, ReadUntil, ParseCalls;
    if thinking {
      assert text == p.reasoning + (THINK_END + p.content);
      ReasoningScans(text, p.reasoning, p.content);
      NoStopInContent(|text| - |p.content|, text, p.content);
    } else {
      assert text == p.content && text[0..] == text;
      NoStopInContent(0, text, p.content);
    }
  }

  lemma NoStopInContent(index: nat, text: string, content: string)
    requires index <= |text| && text[index..] == content && NoSpecialToken(content)
    ensures ReadUntil(index, text, [EOS, CALLS]).stop.None?
  {
    var r := ReadUntil(index, text, [EOS, CALLS]);
    ReadSpec(index, text, [EOS, CALLS]);
    if r.stop.Some? {
      var s, i := r.stop.value, |r.content|;
      assert content[i..i + |s|] == s;
      ContainsAt(content, s, i);
      NoCallsInside(content);
    }
  }

  lemma NoCallsInside(content: string)
    requires NoSpecialToken(content)
    ensures !Contains(content, CALLS)
  {
    DsmlInside();
    hide CALLS;
    if Contains(content, CALLS) {
      var i := Find(content, CALLS, 0).value;
      assert content == content[..i] + CALLS + content[i + |CALLS|..];
      ContainsMono(content[..i], CALLS, content[i + |CALLS|..], DSML);
    }
  }

  // ---- Exactly what is accepted without a tool block ----

  /** Every text accepted outside the tool block is, character for character, the print of the message returned. */
  lemma AcceptedExactly(text: string, thinking: bool, p: Parsed)
    requires !Contains(text, CALLS)
    ensures ParseMessage(text, thinking) == Ok(p) <==>
            text == Turn(p, thinking, EOS) && p.calls == [] && Clean(p) && (thinking || p.reasoning == "")
  {
    if ParseMessage(text, thinking) == Ok(p) {
      ParsedIsClean(text, thinking);
      AcceptedIsPrinted(text, thinking, p);
    }
    hide Turn, ParseMessage, Clean, CALLS, EOS;
    if text == Turn(p, thinking, EOS) && Clean(p) && (thinking || p.reasoning == "") {
      RoundTripIff(p, thinking);
    }
  }

  lemma StopOccurs(index: nat, text: string, stops: seq<string>)
    requires index <= |text|
    ensures var r := ReadUntil(index, text, stops); r.stop.Some? ==> Contains(text, r.stop.value)
  {
    var (pos, stop) := Nearest(text, index, stops);
    if stop.Some? { ContainsAt(text, stop.value, pos); }
  }

  lemma SummaryIsPrinted(index: nat, text: string, reasoning: string, p: Parsed)
    requires index <= |text| && !Contains(text, CALLS) && ParseSummary(index, text, reasoning) == Ok(p)
    ensures p.calls == [] && p.reasoning == reasoning && text[index..] == p.content + EOS
  {
    hide ReadUntil, NoSpecialToken, ParseCalls, CALLS, EOS;
    ReadSpec(index, text, [EOS, CALLS]);
    StopOccurs(index, text, [EOS, CALLS]);
    assert text[index..] == p.content + EOS + text[|text|..];
    assert text[|text|..] == "";
  }

  lemma AcceptedIsPrinted(text: string, thinking: bool, p: Parsed)
    requires !Contains(text, CALLS) && ParseMessage(text, thinking) == Ok(p)
    ensures text == Turn(p, thinking, EOS) && p.calls == [] && (thinking || p.reasoning == "")
  {
    hide ReadUntil, ParseSummary, THINK_END, CALLS, EOS;
    assert text[0..] == text;
    if thinking {
      var r := ReadUntil(0, text, [THINK_END, CALLS]);
      ReadSpec(0, text, [THINK_END, CALLS]);
      SummaryIsPrinted(r.next, text, r.content, p);
      Reassociate(p.reasoning, THINK_END, p.content, "", "", EOS);
      assert p.content + EOS == p.content + "" + ("" + EOS);
      assert text == p.reasoning + THINK_END + p.content + "" + EOS;
    } else {
      SummaryIsPrinted(0, text, "", p);
      assert text == "" + p.content + "" + EOS;
    }
  }
}
