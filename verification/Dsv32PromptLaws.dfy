/** What dropping old reasoning and encoding incrementally do to the prompt. */
module Dsv32PromptLaws {
  import opened Wrappers
  import opened Dsv32Encoder

  // ---- Dropping reasoning ----

  /** No message before the last user turn has a role that `drop_thinking_messages` discards. */
  ghost predicate NothingDropped(messages: seq<Message>) {
    forall i :: 0 <= i < LastUser(messages) ==> !messages[i].Developer? && !messages[i].OtherRole?
  }

  lemma {:induction false} DropEarlyShape(p: seq<Message>)
    ensures |DropEarly(p)| <= |p|
    ensures |DropEarly(p)| == |p| <==> forall i :: 0 <= i < |p| ==> Kept(p[i], true)
    ensures |DropEarly(p)| == |p| ==> forall i :: 0 <= i < |p| ==> DropEarly(p)[i] == WithoutReasoning(p[i], true)
    ensures forall m :: m in DropEarly(p) ==> Kept(m, true) && WithoutReasoning(m, true) == m
  {
    if p != [] { DropEarlyShape(p[..|p| - 1]); }
  }

  lemma {:induction false} DropEarlyFixed(p: seq<Message>)
    requires forall m :: m in p ==> Kept(m, true) && WithoutReasoning(m, true) == m
    ensures DropEarly(p) == p
  {
    if p != [] { DropEarlyFixed(p[..|p| - 1]); }
  }

  lemma DropIdempotent(messages: seq<Message>)
    ensures DropThinking(DropThinking(messages)) == DropThinking(messages)
  {
    var n := EarlyCount(messages);
    var front := DropEarly(messages[..n]);
    var out := front + messages[n..];
    DropEarlyShape(messages[..n]);
    DropEarlyFixed(front);
    assert out[..|front|] == front && out[|front|..] == messages[n..];
    if LastUser(messages) >= 0 {
      assert IsTurn(out[|front|]);
      assert forall i :: |front| < i < |out| ==> out[i] == messages[n + i - |front|];
      assert LastUser(out) == |front|;
    } else {
      assert out == messages;
    }
  }

  /** Nothing is discarded exactly when the length is kept; then all stays but the reasoning before the last turn. */
  lemma DropKeepsShape(messages: seq<Message>)
    ensures |DropThinking(messages)| <= |messages|
    ensures |DropThinking(messages)| == |messages| <==> NothingDropped(messages)
    ensures NothingDropped(messages) ==>
              && LastUser(DropThinking(messages)) == LastUser(messages)
              && forall i :: 0 <= i < |messages| ==>
                   DropThinking(messages)[i] ==
                     if i < LastUser(messages) && messages[i].Assistant?
                     then Assistant(messages[i].content, None, messages[i].toolCalls) else messages[i]
  {
    var n := EarlyCount(messages);
    DropEarlyShape(messages[..n]);
    var out := DropThinking(messages);
    if NothingDropped(messages) {
      forall i | 0 <= i < |messages| ensures out[i] == WithoutReasoning(messages[i], i < LastUser(messages)) {
        if i < n { assert messages[..n][i] == messages[i]; }
      }
      LastUserSame(out, messages);
    } else {
      var i :| 0 <= i < LastUser(messages) && !(!messages[i].Developer? && !messages[i].OtherRole?);
      assert messages[..n][i] == messages[i];
    }
  }

  lemma LastUserSame(a: seq<Message>, b: seq<Message>)
    requires |a| == |b| && forall i :: 0 <= i < |a| ==> IsTurn(a[i]) == IsTurn(b[i])
    ensures LastUser(a) == LastUser(b)
  {
  }

  lemma {:induction false} PreviousSame(a: seq<Message>, b: seq<Message>, j: int)
    requires -1 <= j < |a| && j < |b|
    requires forall i :: 0 <= i <= j ==> a[i].Tool? == b[i].Tool?
    ensures PreviousNonTool(a, j) == PreviousNonTool(b, j)
    decreases j + 1
  {
    if j >= 0 { PreviousSame(a, b, j - 1); }
  }

  lemma DropKeepsRendering(messages: seq<Message>, index: nat)
    requires NothingDropped(messages)
    ensures RenderMessage(index, DropThinking(messages), Thinking) == RenderMessage(index, messages, Thinking)
  {
    hide DropThinking, RenderTool, ToolsAndSchema, RenderAssistant, UserTurn, ThinkMark, LastUser, NothingDropped;
    DropKeepsShape(messages);
    if index < |messages| && messages[index].Tool? {
      ToolSame(index, DropThinking(messages), messages, index >= LastUser(messages));
    } else if index < |messages| && messages[index].Assistant? {
      AssistantSame(messages[index], index > LastUser(messages), index < LastUser(messages));
    }
  }

  /** Past reasoning is not printed, so losing it does not show. */
  lemma AssistantSame(m: Message, thinking: bool, early: bool)
    requires m.Assistant? && !(thinking && early)
    ensures RenderAssistant(WithoutReasoning(m, early), thinking) == RenderAssistant(m, thinking)
  {
  }

  lemma ToolSame(index: nat, a: seq<Message>, b: seq<Message>, open: bool)
    requires |a| == |b| && index < |a| && a[index].Tool? && b[index].Tool?
    requires forall i :: 0 <= i < |a| ==> a[i] == WithoutReasoning(b[i], i < LastUser(b))
    ensures RenderTool(index, a, open) == RenderTool(index, b, open)
  {
    PreviousSame(a, b, index - 1);
  }

  lemma {:induction false} RangeSame(a: seq<Message>, b: seq<Message>, mode: Mode, lo: nat, hi: nat)
    requires forall i: nat :: lo <= i < hi ==> RenderMessage(i, a, mode) == RenderMessage(i, b, mode)
    ensures RenderRange(a, mode, lo, hi) == RenderRange(b, mode, lo, hi)
    decreases hi - lo
  {
    hide Render;
    if lo < hi { RangeSame(a, b, mode, lo + 1, hi); }
  }

  lemma {:induction false} RangeFails(messages: seq<Message>, mode: Mode, lo: nat, hi: nat, at: nat)
    requires lo <= at < hi && RenderMessage(at, messages, mode).Err?
    ensures RenderRange(messages, mode, lo, hi).Err?
    decreases hi - lo
  {
    hide Render;
    if lo < at { RangeFails(messages, mode, lo + 1, hi, at); }
  }

  /** When nothing is discarded, dropping changes neither the prompt nor the error. */
  lemma DropPreservesPrompt(messages: seq<Message>, context: seq<Message>, addBos: bool)
    requires NothingDropped(context + messages)
    ensures Encode(messages, Thinking, context, true, addBos) == Encode(messages, Thinking, context, false, addBos)
  {
    hide Render;
    var full := context + messages;
    forall i: nat ensures RenderMessage(i, DropThinking(full), Thinking) == RenderMessage(i, full, Thinking) {
      DropKeepsRendering(full, i);
    }
    RangeSame(DropThinking(full), full, Thinking, |context|, |context| + |messages|);
  }

  lemma RenderOutside(index: nat, messages: seq<Message>, mode: Mode)
    requires index >= |messages|
    ensures RenderMessage(index, messages, mode) == Err(IndexOutOfRange)
  {
  }

  /** A discarded message shifts the list, so the last index runs off its end and the encoding fails. */
  lemma DropBreaksPrompt(messages: seq<Message>, context: seq<Message>, addBos: bool)
    requires !NothingDropped(context + messages) && messages != []
    ensures Encode(messages, Thinking, context, true, addBos).Err?
  {
    hide Render, DropThinking, NothingDropped, LastUser, RenderRange;
    var full, n := context + messages, |context| + |messages|;
    DropKeepsShape(full);
    RenderOutside(n - 1, DropThinking(full), Thinking);
    RangeFails(DropThinking(full), Thinking, |context|, n, n - 1);
  }

  /** Dropping reasoning keeps a valid prompt exactly when no developer message (or unknown role) precedes the
      last user turn. */
  lemma DropPreservesPromptIff(messages: seq<Message>, context: seq<Message>, addBos: bool)
    requires messages != []
    requires Encode(messages, Thinking, context, false, addBos).Ok?
    ensures Encode(messages, Thinking, context, true, addBos) == Encode(messages, Thinking, context, false, addBos)
            <==> NothingDropped(context + messages)
  {
    hide Render;
    if NothingDropped(context + messages) {
      DropPreservesPrompt(messages, context, addBos);
    } else {
      DropBreaksPrompt(messages, context, addBos);
    }
  }

  // ---- Incremental encoding ----

  lemma {:induction false} RangeSplit(messages: seq<Message>, mode: Mode, lo: nat, mid: nat, hi: nat)
    requires lo <= mid <= hi
    ensures RenderRange(messages, mode, lo, hi) ==
            Then(RenderRange(messages, mode, lo, mid), RenderRange(messages, mode, mid, hi))
    decreases mid - lo
  {
    hide Render;
    if lo < mid {
      RangeSplit(messages, mode, lo + 1, mid, hi);
      ThenAssociative(RenderMessage(lo, messages, mode), RenderRange(messages, mode, lo + 1, mid),
                      RenderRange(messages, mode, mid, hi));
    } else {
      var r := RenderRange(messages, mode, mid, hi);
      if r.Ok? { assert "" + r.value == r.value; }
    }
  }

  lemma ThenAssociative(a: Rendered, b: Rendered, c: Rendered)
    ensures Then(a, Then(b, c)) == Then(Then(a, b), c)
  {
    if a.Ok? { ThenAssoc(a.value, b, c); }
  }

  /** How many calls a leading tool result finds in the last message. */
  function HeadCalls(messages: seq<Message>): nat
    requires messages != []
  {
    |CallsAnswered(messages, 0)|
  }

  /** A leading tool result finds no call, one call, or more calls, both with and without the messages that follow. */
  predicate HeadKeeps(a: seq<Message>, b: seq<Message>)
    requires a != []
  {
    a[0].Tool? ==>
      && (HeadCalls(a + b) == 0 <==> HeadCalls(a) == 0)
      && (HeadCalls(a + b) == 1 <==> HeadCalls(a) == 1)
  }

  /** A message renders the same whatever follows it, given the same last user turn. */
  lemma RenderPrefix(a: seq<Message>, b: seq<Message>, i: nat, mode: Mode, last: int)
    requires i < |a| && (i > 0 || HeadKeeps(a, b))
    ensures Render(i, a + b, mode, last) == Render(i, a, mode, last)
  {
    hide THINK, THINK_END, UserTurn, ToolsAndSchema, RenderAssistant;
    PreviousSame(a + b, a, i - 1);
  }

  lemma RangePrefix(a: seq<Message>, b: seq<Message>, mode: Mode)
    requires a != [] && HeadKeeps(a, b)
    requires mode == Chat || LastUser(a + b) == LastUser(a)
    ensures RenderRange(a + b, mode, 0, |a|) == RenderRange(a, mode, 0, |a|)
  {
    forall i: nat | i < |a| ensures RenderMessage(i, a + b, mode) == RenderMessage(i, a, mode) {
      RenderPrefix(a, b, i, mode, LastUser(a + b));
    }
    hide Render;
    RangeSame(a + b, a, mode, 0, |a|);
  }

  /** The prompt of `context + messages`, and the same prompt obtained in two calls. */
  ghost function Whole(context: seq<Message>, messages: seq<Message>, mode: Mode, drop: bool, addBos: bool): Rendered {
    Encode(context + messages, mode, [], drop, addBos)
  }

  ghost function InTwo(context: seq<Message>, messages: seq<Message>, mode: Mode, drop: bool, addBos: bool): Rendered {
    Then(Encode(context, mode, [], drop, addBos), Encode(messages, mode, context, drop, addBos))
  }

  /** Both prompts share everything after the context's own messages. */
  lemma WholeAndInTwo(context: seq<Message>, messages: seq<Message>, mode: Mode, addBos: bool)
    requires context != []
    ensures var full := context + messages;
            var start := Ok(if addBos then BOS else "");
            var rest := RenderRange(full, mode, |context|, |full|);
            && Whole(context, messages, mode, false, addBos) ==
               Then(Then(start, RenderRange(full, mode, 0, |context|)), rest)
            && InTwo(context, messages, mode, false, addBos) ==
               Then(Then(start, RenderRange(context, mode, 0, |context|)), rest)
  {
    hide Render, LastUser, DropThinking, RenderRange;
    var full := context + messages;
    var start: Rendered := Ok(if addBos then BOS else "");
    assert [] + full == full && [] + context == context;
    RangeSplit(full, mode, 0, |context|, |full|);
    ThenAssociative(start, RenderRange(full, mode, 0, |context|), RenderRange(full, mode, |context|, |full|));
    var rest := RenderRange(full, mode, |context|, |full|);
    if rest.Ok? { assert "" + rest.value == rest.value; }
  }

  /** In chat mode any conversation may be encoded in two calls, errors included, unless it starts with a tool result
      that changes between finding no call, one and more. */
  lemma IncrementalChat(context: seq<Message>, messages: seq<Message>, drop: bool, addBos: bool)
    requires context != [] && HeadKeeps(context, messages)
    ensures Whole(context, messages, Chat, drop, addBos) == InTwo(context, messages, Chat, drop, addBos)
  {
    hide Render, LastUser, RenderRange, DropThinking, HeadKeeps;
    WholeAndInTwo(context, messages, Chat, addBos);
    RangePrefix(context, messages, Chat);
  }

  const CLOSING := "\n</function_results>\n\n"

  function HeadText(content: Option<string>): string {
    "\n\n<function_results>\n<result>" + Formatted(content) + "</result>"
  }

  /** A leading tool result closes the results exactly when it finds one call. */
  lemma HeadRenders(messages: seq<Message>, mode: Mode)
    requires messages != [] && messages[0].Tool?
    ensures var r := RenderMessage(0, messages, mode);
            && (r.Ok? <==> HeadCalls(messages) > 0)
            && (r.Ok? ==> r.value == HeadText(messages[0].content) +
                          if HeadCalls(messages) == 1 then CLOSING + ThinkMark(0 >= LastUser(messages) && mode == Thinking)
                          else "")
  {
    hide LastUser, ThinkMark, Formatted;
    HeadPieces(Formatted(messages[0].content), ThinkMark(0 >= LastUser(messages) && mode == Thinking));
  }

  lemma HeadPieces(content: string, mark: string)
    ensures "\n\n<function_results>" + "\n<result>" + content + "</result>" + ("\n</function_results>\n\n" + mark) ==
            "\n\n<function_results>\n<result>" + content + "</result>" + ("\n</function_results>\n\n" + mark)
    ensures "\n\n<function_results>" + "\n<result>" + content + "</result>" + "" ==
            "\n\n<function_results>\n<result>" + content + "</result>" + ""
  {
    assert "\n\n<function_results>" + "\n<result>" == "\n\n<function_results>\n<result>";
  }

  /** Both renderings of a context that starts with a tool result, split after it. */
  lemma HeadSplit(messages: seq<Message>, mode: Mode, n: nat)
    requires messages != [] && messages[0].Tool? && 1 <= n && RenderRange(messages, mode, 0, n).Ok?
    ensures RenderMessage(0, messages, mode).Ok? && RenderRange(messages, mode, 1, n).Ok?
    ensures RenderRange(messages, mode, 0, n).value ==
            RenderMessage(0, messages, mode).value + RenderRange(messages, mode, 1, n).value
  {
    hide Render;
    RangeSplit(messages, mode, 0, 1, n);
    RangeOne(messages, mode, 0);
  }

  lemma RangePrefixTail(a: seq<Message>, b: seq<Message>, mode: Mode)
    requires a != [] && (mode == Chat || LastUser(a + b) == LastUser(a))
    ensures RenderRange(a + b, mode, 1, |a|) == RenderRange(a, mode, 1, |a|)
  {
    forall i: nat | 1 <= i < |a| ensures RenderMessage(i, a + b, mode) == RenderMessage(i, a, mode) {
      RenderPrefix(a, b, i, mode, LastUser(a + b));
    }
    hide Render;
    RangeSame(a + b, a, mode, 1, |a|);
  }

  /** A leading tool result closes the results with the messages that follow exactly when it does without them. */
  predicate HeadAgrees(context: seq<Message>, messages: seq<Message>)
    requires context != []
  {
    context[0].Tool? ==> (HeadCalls(context + messages) == 1 <==> HeadCalls(context) == 1)
  }

  /** Given the same last user turn, the context renders alike with and without what follows exactly when its head
      agrees. */
  lemma ContextAlikeIff(context: seq<Message>, messages: seq<Message>, mode: Mode)
    requires context != [] && (mode == Chat || LastUser(context + messages) == LastUser(context))
    requires RenderRange(context + messages, mode, 0, |context|).Ok? && RenderRange(context, mode, 0, |context|).Ok?
    ensures RenderRange(context + messages, mode, 0, |context|) == RenderRange(context, mode, 0, |context|) <==>
            HeadAgrees(context, messages)
  {
    hide Render, RenderRange, LastUser, HeadCalls, HeadText;
    var full, n := context + messages, |context|;
    if context[0].Tool? {
      HeadSplit(full, mode, n);
      HeadSplit(context, mode, n);
      HeadRenders(full, mode);
      HeadRenders(context, mode);
      RangePrefixTail(context, messages, mode);
    } else {
      RangePrefix(context, messages, mode);
    }
  }

  /** Chat mode, exactly: two valid encodings agree if and only if a leading tool result, if there is one, closes the
      results in both or in neither. */
  lemma IncrementalChatIff(context: seq<Message>, messages: seq<Message>, drop: bool, addBos: bool)
    requires context != []
    requires Whole(context, messages, Chat, drop, addBos).Ok? && InTwo(context, messages, Chat, drop, addBos).Ok?
    ensures Whole(context, messages, Chat, drop, addBos) == InTwo(context, messages, Chat, drop, addBos) <==>
            HeadAgrees(context, messages)
  {
    hide Render, LastUser, RenderRange, DropThinking, HeadAgrees;
    var full, n := context + messages, |context|;
    WholeAndInTwo(context, messages, Chat, addBos);
    ContextAlikeIff(context, messages, Chat);
    var a, b := RenderRange(full, Chat, 0, n), RenderRange(context, Chat, 0, n);
    SameMiddle(if addBos then BOS else "", a.value, b.value, RenderRange(full, Chat, n, |full|).value);
  }

  lemma LeadingTool(context: seq<Message>, full: seq<Message>)
    requires context == [Tool(Some("42"))] && full == context + [Assistant(None, None, [ToolCall("f", [])])]
    ensures RenderMessage(0, full, Chat).Ok? && RenderMessage(1, full, Chat).Ok? && RenderMessage(0, context, Chat).Err?
  {
    hide AssistantTurn, THINK_END;
  }

  /** A leading tool result looks up its calls in the last message, so splitting after it changes the outcome. */
  lemma IncrementalChatNeedsNonToolHead()
    ensures var context, messages := [Tool(Some("42"))], [Assistant(None, None, [ToolCall("f", [])])];
            Whole(context, messages, Chat, true, true).Ok? && InTwo(context, messages, Chat, true, true).Err?
  {
    hide Render, RenderRange, BOS;
    var context := [Tool(Some("42"))];
    var full := context + [Assistant(None, None, [ToolCall("f", [])])];
    assert [] + full == full && [] + context == context;
    LeadingTool(context, full);
    RangeFails(context, Chat, 0, 1, 0);
    RangeSplit(full, Chat, 0, 1, 2);
    RangeOne(full, Chat, 0);
    RangeOne(full, Chat, 1);
  }

  lemma LastUserOfSum(a: seq<Message>, b: seq<Message>)
    ensures (forall m :: m in b ==> !IsTurn(m)) ==> LastUser(a + b) == LastUser(a)
    ensures (exists m :: m in b && IsTurn(m)) ==> LastUser(a + b) >= |a|
  {
    assert forall i :: |a| <= i < |a + b| ==> (a + b)[i] in b;
    assert forall i :: 0 <= i < |a| ==> (a + b)[i] == a[i];
    if m :| m in b && IsTurn(m) {
      var k :| 0 <= k < |b| && b[k] == m;
      assert (a + b)[|a| + k] == m;
    }
  }

  /** Both renderings of the context, once a later turn exists: they differ at the context's own last turn. */
  lemma LaterTurnClosesThinking(context: seq<Message>, messages: seq<Message>)
    requires context != [] && HeadKeeps(context, messages) && LastUser(context) >= 0
    requires LastUser(context + messages) >= |context|
    requires RenderRange(context + messages, Thinking, 0, |context|).Ok?
    requires RenderRange(context, Thinking, 0, |context|).Ok?
    ensures RenderRange(context + messages, Thinking, 0, |context|) != RenderRange(context, Thinking, 0, |context|)
  {
    var full, l, n := context + messages, LastUser(context), |context|;
    forall i: nat | i < l ensures RenderMessage(i, full, Thinking) == RenderMessage(i, context, Thinking) {
      RenderBeforeTurn(context, messages, i);
    }
    TurnMark(context, messages);
    ghost var body := TurnBody(context[l]);
    hide Render, TurnBody, HeadKeeps;
    RangeSame(full, context, Thinking, 0, l);
    RangeSplit(full, Thinking, 0, l, n);
    RangeSplit(context, Thinking, 0, l, n);
    var before := RenderRange(full, Thinking, 0, l).value;
    DifferAfter(before, body, RenderRange(full, Thinking, l + 1, n).value, RenderRange(context, Thinking, l + 1, n).value);
  }

  lemma DifferAfter(before: string, body: string, afterA: string, afterB: string)
    ensures before + (body + THINK_END + afterA) != before + (body + THINK + afterB)
  {
    var a, b := before + (body + THINK_END + afterA), before + (body + THINK + afterB);
    assert a[|before| + |body| + 1] == THINK_END[1];
    assert b[|before| + |body| + 1] == THINK[1];
  }

  lemma RenderBeforeTurn(context: seq<Message>, messages: seq<Message>, i: nat)
    requires i < LastUser(context) && (i > 0 || HeadKeeps(context, messages))
    requires LastUser(context + messages) >= |context|
    ensures RenderMessage(i, context + messages, Thinking) == RenderMessage(i, context, Thinking)
  {
    RenderPrefix(context, messages, i, Thinking, LastUser(context + messages));
    hide ToolsAndSchema, CallsAnswered;
  }

  lemma TurnMark(context: seq<Message>, messages: seq<Message>)
    requires LastUser(context) >= 0 && LastUser(context + messages) >= |context|
    ensures var l := LastUser(context);
            && RenderMessage(l, context + messages, Thinking).Ok? == RenderMessage(l, context, Thinking).Ok?
            && (RenderMessage(l, context, Thinking).Ok? ==>
                && RenderMessage(l, context + messages, Thinking) == Ok(TurnBody(context[l]) + THINK_END)
                && RenderMessage(l, context, Thinking) == Ok(TurnBody(context[l]) + THINK))
  {
  }

  ghost function TurnBody(m: Message): string
    requires IsTurn(m)
  {
    if m.User? then UserTurn(Formatted(m.content))
    else UserTurn(ToolsAndSchema(m.tools, m.schema) + "\n\n# The user's message is: " + OrEmpty(m.content))
  }

  ghost function Assistants(messages: seq<Message>, k: nat): nat
    requires k <= |messages|
  {
    if k == 0 then 0 else Assistants(messages, k - 1) + if messages[k - 1].Assistant? then 1 else 0
  }

  /** The nearest non-tool message before `k` is an assistant with results still to come. */
  ghost predicate Pending(messages: seq<Message>, k: nat)
    requires k <= |messages|
  {
    var prev := PreviousNonTool(messages, k - 1);
    prev >= 0 && messages[prev].Assistant? && k - prev <= |messages[prev].toolCalls|
  }

  /** The first message that renders on its own: a leading tool result looks at the end of the list. */
  function Start(messages: seq<Message>): nat
    requires messages != []
  {
    if messages[0].Tool? then 1 else 0
  }

  /** Without any turn in the context, a later turn removes at least seven characters per assistant message. */
  lemma {:induction false} LaterTurnShortens(context: seq<Message>, messages: seq<Message>, k: nat)
    requires context != [] && LastUser(context) == -1
    requires LastUser(context + messages) >= |context| >= k >= Start(context)
    requires RenderRange(context + messages, Thinking, Start(context), k).Ok?
    requires RenderRange(context, Thinking, Start(context), k).Ok?
    ensures |RenderRange(context, Thinking, Start(context), k).value|
            - |RenderRange(context + messages, Thinking, Start(context), k).value|
            >= 7 * Assistants(context, k) + if Pending(context, k) then 1 else 0
  {
    hide Render;
    var lo := Start(context);
    if k > lo {
      var full, i := context + messages, k - 1;
      LaterTurnStep(context, messages, i);
      RangeSplit(full, Thinking, lo, i, k);
      RangeSplit(context, Thinking, lo, i, k);
      RangeOne(full, Thinking, i);
      RangeOne(context, Thinking, i);
      LaterTurnShortens(context, messages, i);
    } else {
      NothingPending(context);
    }
  }

  lemma NothingPending(context: seq<Message>)
    requires context != []
    ensures Assistants(context, Start(context)) == 0 && !Pending(context, Start(context))
  {
    assert Assistants(context, 0) == 0;
  }

  lemma RangeOne(messages: seq<Message>, mode: Mode, i: nat)
    ensures RenderRange(messages, mode, i, i + 1) == RenderMessage(i, messages, mode)
  {
    hide Render;
    var r := RenderMessage(i, messages, mode);
    if r.Ok? { assert r.value + "" == r.value; }
    assert RenderRange(messages, mode, i + 1, i + 1) == Ok("");
  }

  lemma LaterTurnStep(context: seq<Message>, messages: seq<Message>, i: nat)
    requires context != [] && Start(context) <= i < |context| && LastUser(context) == -1
    requires LastUser(context + messages) >= |context|
    ensures var a, b := RenderMessage(i, context + messages, Thinking), RenderMessage(i, context, Thinking);
            a.Ok? && b.Ok? ==>
              && (context[i].Assistant? ==> |b.value| - |a.value| >= 8)
              && (context[i].Tool? ==> |b.value| - |a.value| >= if Pending(context, i) && !Pending(context, i + 1) then -1 else 0)
              && (context[i].Tool? && Pending(context, i + 1) ==> Pending(context, i))
              && (!context[i].Assistant? && !context[i].Tool? ==> a == b && !Pending(context, i + 1))
  {
    PreviousSame(context + messages, context, i - 1);
    assert !IsTurn(context[i]);
  }

  /** Contexts on which agreement depends on the texts: no turn of their own, a later turn, and a leading tool result
      that closes the results only together with what follows. What it prints more may be what reasoning prints less. */
  ghost predicate HeadMayMakeUp(context: seq<Message>, messages: seq<Message>)
    requires context != []
  {
    && context[0].Tool? && LastUser(context) == -1 && (exists m :: m in messages && IsTurn(m))
    && HeadCalls(context + messages) == 1 && HeadCalls(context) > 1
  }

  /** Thinking mode: encoding in two calls agrees with encoding at once exactly when, without a user or developer turn in
      the new messages, a leading tool result agrees, and with one, the context consists of system messages only. */
  lemma IncrementalThinkingIff(context: seq<Message>, messages: seq<Message>, drop: bool, addBos: bool)
    requires context != [] && !HeadMayMakeUp(context, messages)
    requires drop ==> NothingDropped(context + messages)
    requires Whole(context, messages, Thinking, drop, addBos).Ok?
    requires InTwo(context, messages, Thinking, drop, addBos).Ok?
    ensures Whole(context, messages, Thinking, drop, addBos) == InTwo(context, messages, Thinking, drop, addBos) <==>
            if forall m :: m in messages ==> !IsTurn(m) then HeadAgrees(context, messages)
            else forall m :: m in context ==> m.System?
  {
    hide Render, HeadAgrees, HeadMayMakeUp;
    if drop { DropChangesNothing(context, messages, addBos); }
    IncrementalWithoutDrop(context, messages, addBos);
  }

  /** The sufficient half also covers the failing conversations. */
  lemma IncrementalThinking(context: seq<Message>, messages: seq<Message>, drop: bool, addBos: bool)
    requires context != [] && HeadKeeps(context, messages)
    requires drop ==> NothingDropped(context + messages)
    requires forall m :: m in messages ==> !IsTurn(m)
    ensures Whole(context, messages, Thinking, drop, addBos) == InTwo(context, messages, Thinking, drop, addBos)
  {
    hide Render, HeadKeeps;
    if drop { DropChangesNothing(context, messages, addBos); }
    LastUserOfSum(context, messages);
    WholeAndInTwo(context, messages, Thinking, addBos);
    RangePrefix(context, messages, Thinking);
  }

  lemma DropChangesNothing(context: seq<Message>, messages: seq<Message>, addBos: bool)
    requires NothingDropped(context + messages)
    ensures Whole(context, messages, Thinking, true, addBos) == Whole(context, messages, Thinking, false, addBos)
    ensures InTwo(context, messages, Thinking, true, addBos) == InTwo(context, messages, Thinking, false, addBos)
  {
    hide Render;
    var full := context + messages;
    assert [] + full == full && [] + context == context;
    LastUserOfSum(context, messages);
    forall i | 0 <= i < EarlyCount(context) ensures Kept(context[i], true) {
      assert full[i] == context[i];
    }
    DropPreservesPrompt(full, [], addBos);
    DropPreservesPrompt(context, [], addBos);
    DropPreservesPrompt(messages, context, addBos);
  }

  lemma IncrementalWithoutDrop(context: seq<Message>, messages: seq<Message>, addBos: bool)
    requires context != [] && !HeadMayMakeUp(context, messages)
    requires Whole(context, messages, Thinking, false, addBos).Ok?
    requires InTwo(context, messages, Thinking, false, addBos).Ok?
    ensures Whole(context, messages, Thinking, false, addBos) == InTwo(context, messages, Thinking, false, addBos) <==>
            if forall m :: m in messages ==> !IsTurn(m) then HeadAgrees(context, messages)
            else forall m :: m in context ==> m.System?
  {
    hide Render, RenderRange, LastUser, HeadAgrees, HeadMayMakeUp;
    var full, n := context + messages, |context|;
    WholeAndInTwo(context, messages, Thinking, addBos);
    var a, b := RenderRange(full, Thinking, 0, n), RenderRange(context, Thinking, 0, n);
    SameMiddle(if addBos then BOS else "", a.value, b.value, RenderRange(full, Thinking, n, |full|).value);
    LastUserOfSum(context, messages);
    if forall m :: m in messages ==> !IsTurn(m) {
      ContextAlikeIff(context, messages, Thinking);
    } else {
      LaterTurnAlikeIff(context, messages);
    }
  }

  /** With a later turn the context renders alike exactly when it is all system messages. */
  lemma LaterTurnAlikeIff(context: seq<Message>, messages: seq<Message>)
    requires context != [] && !HeadMayMakeUp(context, messages) && exists m :: m in messages && IsTurn(m)
    requires RenderRange(context + messages, Thinking, 0, |context|).Ok? && RenderRange(context, Thinking, 0, |context|).Ok?
    ensures RenderRange(context + messages, Thinking, 0, |context|) == RenderRange(context, Thinking, 0, |context|) <==>
            forall m :: m in context ==> m.System?
  {
    hide Render, RenderRange;
    var n := |context|;
    LastUserOfSum(context, messages);
    if context[0].Tool? {
      HeadNeverAlike(context, messages);
      assert context[0] in context;
    } else if LastUser(context) >= 0 {
      LaterTurnClosesThinking(context, messages);
      assert context[LastUser(context)] in context && !context[LastUser(context)].System?;
    } else {
      LaterTurnShortens(context, messages, n);
      SystemOrAssistant(context);
      if forall m :: m in context ==> m.System? {
        SystemsRenderAlike(context, messages);
      }
    }
  }

  /** After a leading tool result a later turn always shows. */
  lemma HeadNeverAlike(context: seq<Message>, messages: seq<Message>)
    requires context != [] && context[0].Tool? && !HeadMayMakeUp(context, messages)
    requires LastUser(context + messages) >= |context| && exists m :: m in messages && IsTurn(m)
    requires RenderRange(context + messages, Thinking, 0, |context|).Ok? && RenderRange(context, Thinking, 0, |context|).Ok?
    ensures RenderRange(context + messages, Thinking, 0, |context|) != RenderRange(context, Thinking, 0, |context|)
  {
    hide Render, RenderRange, HeadCalls;
    var full, n := context + messages, |context|;
    HeadSplit(full, Thinking, n);
    HeadSplit(context, Thinking, n);
    HeadRenders(full, Thinking);
    HeadRenders(context, Thinking);
    if LastUser(context) >= 0 {
      if HeadKeeps(context, messages) {
        LaterTurnClosesThinking(context, messages);
      } else {
        HeadThenTurn(context, messages);
      }
    } else {
      LaterTurnShortens(context, messages, n);
      HeadWithoutTurn(context, messages);
    }
  }

  /** A text that begins with itself moved by C holds nothing but characters of C. */
  lemma NotShifted(c: string, p: string, u: string, v: string, x: char)
    requires x in p && x !in c && c != ""
    ensures c + p + u != p + v
  {
    var k := FirstOf(p, x);
    assert (p + v)[k] == x;
    assert (c + p + u)[k] == if k < |c| then c[k] else p[k - |c|];
  }

  function FirstOf(s: string, x: char): (k: nat)
    requires x in s
    ensures k < |s| && s[k] == x && forall i :: 0 <= i < k ==> s[i] != x
  {
    if s[0] == x then 0 else 1 + FirstOf(s[1..], x)
  }

  /** With a turn in the context: the marks differ there, and what the head prints more cannot hide it. */
  lemma HeadThenTurn(context: seq<Message>, messages: seq<Message>)
    requires context != [] && context[0].Tool? && LastUser(context) >= 0 && !HeadKeeps(context, messages)
    requires LastUser(context + messages) >= |context|
    requires RenderRange(context + messages, Thinking, 0, |context|).Ok? && RenderRange(context, Thinking, 0, |context|).Ok?
    ensures RenderRange(context + messages, Thinking, 0, |context|) != RenderRange(context, Thinking, 0, |context|)
  {
    hide Render, RenderRange, HeadCalls, TurnBody, HeadText, UserTurn, CLOSING, THINK_END;
    var full, n, l := context + messages, |context|, LastUser(context);
    HeadSplit(full, Thinking, n);
    HeadSplit(context, Thinking, n);
    HeadRenders(full, Thinking);
    HeadRenders(context, Thinking);
    var p, u, v := TurnInTail(context, messages);
    var h, c := HeadText(context[0].content), CLOSING + THINK_END;
    ClosingPlain();
    NotShifted(c, p, u, v, '｜');
    NotShifted(c, p, v, u, '｜');
    if HeadCalls(full) == 1 {
      Shifted(h, c, p, u, v);
    } else {
      Shifted(h, c, p, v, u);
    }
  }

  lemma Shifted(h: string, c: string, p: string, u: string, v: string)
    requires c + p + u != p + v
    ensures h + c + (p + u) != h + (p + v)
  {
    assert h + c + (p + u) == h + (c + p + u);
    assert (h + (c + p + u))[|h|..] == c + p + u && (h + (p + v))[|h|..] == p + v;
  }

  lemma ClosingPlain()
    ensures '｜' !in CLOSING + THINK_END && CLOSING + THINK_END != ""
  {
  }

  /** Both tails share everything up to the turn's mark, the turn's own tokens included. */
  lemma TurnInTail(context: seq<Message>, messages: seq<Message>) returns (p: string, u: string, v: string)
    requires context != [] && context[0].Tool? && LastUser(context) >= 0 && LastUser(context + messages) >= |context|
    requires RenderRange(context + messages, Thinking, 1, |context|).Ok? && RenderRange(context, Thinking, 1, |context|).Ok?
    ensures '｜' in p
    ensures RenderRange(context + messages, Thinking, 1, |context|).value == p + u
    ensures RenderRange(context, Thinking, 1, |context|).value == p + v
  {
    var full, n, l := context + messages, |context|, LastUser(context);
    forall i: nat | 1 <= i < l ensures RenderMessage(i, full, Thinking) == RenderMessage(i, context, Thinking) {
      RenderBeforeTurn(context, messages, i);
    }
    TurnMark(context, messages);
    TurnBar(context[l]);
    hide Render, TurnBody, LastUser, THINK, THINK_END, HeadKeeps;
    RangeSame(full, context, Thinking, 1, l);
    RangeSplit(full, Thinking, 1, l, n);
    RangeSplit(context, Thinking, 1, l, n);
    var before, body := RenderRange(context, Thinking, 1, l).value, TurnBody(context[l]);
    p := before + body;
    u := THINK_END + RenderRange(full, Thinking, l + 1, n).value;
    v := THINK + RenderRange(context, Thinking, l + 1, n).value;
    ThreeParts(before, body, THINK_END, RenderRange(full, Thinking, l + 1, n).value);
    ThreeParts(before, body, THINK, RenderRange(context, Thinking, l + 1, n).value);
  }

  lemma ThreeParts(a: string, b: string, c: string, d: string)
    ensures a + (b + c + d) == a + b + (c + d)
  {
  }

  lemma TurnBar(m: Message)
    requires IsTurn(m)
    ensures '｜' in TurnBody(m)
  {
    assert TurnBody(m)[1] == '｜';
  }

  /** Without a turn in the context: a closing mark, or lost reasoning, or a missing closing shows. */
  lemma HeadWithoutTurn(context: seq<Message>, messages: seq<Message>)
    requires context != [] && context[0].Tool? && LastUser(context) == -1 && !HeadMayMakeUp(context, messages)
    requires LastUser(context + messages) >= |context| && exists m :: m in messages && IsTurn(m)
    requires RenderRange(context + messages, Thinking, 0, |context|).Ok? && RenderRange(context, Thinking, 0, |context|).Ok?
    ensures RenderRange(context + messages, Thinking, 0, |context|) != RenderRange(context, Thinking, 0, |context|)
  {
    hide Render, RenderRange, HeadText, Pending, LastUser, CLOSING;
    var full, n := context + messages, |context|;
    HeadSplit(full, Thinking, n);
    HeadSplit(context, Thinking, n);
    HeadRenders(full, Thinking);
    HeadRenders(context, Thinking);
    LaterTurnShortens(context, messages, n);
    var h := HeadText(context[0].content);
    var x, y := RenderRange(full, Thinking, 1, n).value, RenderRange(context, Thinking, 1, n).value;
    if HeadCalls(context) == 1 {
      if HeadCalls(full) == 1 {
        DifferAfter(h, CLOSING, x, y);
        ThreeParts(h, CLOSING, THINK_END, x);
        ThreeParts(h, CLOSING, THINK, y);
        assert h + (CLOSING + THINK_END) + x == h + (CLOSING + THINK_END + x);
        assert h + (CLOSING + THINK) + y == h + (CLOSING + THINK + y);
      } else {
        assert |h + (CLOSING + THINK) + y| > |h + "" + x|;
      }
    } else {
      LastAssistant(context);
      assert |h + "" + y| > |h + "" + x|;
    }
  }

  /** A leading tool result finds its calls only in an assistant message at the end. */
  lemma LastAssistant(context: seq<Message>)
    requires context != [] && context[0].Tool? && HeadCalls(context) > 0
    ensures Assistants(context, |context|) > 0
  {
    CountAssistant(context, |context| - 1, |context|);
  }

  /** On such a context the texts decide: the renderings are alike exactly when the rest of the context prints, on its
      own, the closing more than with what follows. */
  lemma HeadMakesUpIff(context: seq<Message>, messages: seq<Message>)
    requires context != [] && HeadMayMakeUp(context, messages)
    requires RenderRange(context + messages, Thinking, 0, |context|).Ok? && RenderRange(context, Thinking, 0, |context|).Ok?
    ensures RenderRange(context + messages, Thinking, 1, |context|).Ok? && RenderRange(context, Thinking, 1, |context|).Ok?
    ensures RenderRange(context + messages, Thinking, 0, |context|) == RenderRange(context, Thinking, 0, |context|) <==>
            CLOSING + THINK_END + RenderRange(context + messages, Thinking, 1, |context|).value ==
            RenderRange(context, Thinking, 1, |context|).value
  {
    hide Render, RenderRange, HeadText, LastUser, CLOSING, THINK_END;
    var full, n := context + messages, |context|;
    LastUserOfSum(context, messages);
    HeadSplit(full, Thinking, n);
    HeadSplit(context, Thinking, n);
    HeadRenders(full, Thinking);
    HeadRenders(context, Thinking);
    SameAfter(HeadText(context[0].content), CLOSING + THINK_END, RenderRange(full, Thinking, 1, n).value,
              RenderRange(context, Thinking, 1, n).value);
  }

  lemma SameAfter(h: string, c: string, x: string, y: string)
    ensures h + c + x == h + "" + y <==> c + x == y
  {
    assert h + c + x == h + (c + x) && h + "" + y == h + y;
    assert (h + (c + x))[|h|..] == c + x && (h + y)[|h|..] == y;
  }

  /** Both outcomes occur: here reasoning equal to the closing, and no other, makes up for it. */
  lemma HeadMakesUp(thought: string)
    ensures var context := [Tool(Some("42")), Assistant(None, Some(thought), [ToolCall("f", []), ToolCall("g", [])])];
            var messages := [User(Some("?")), Assistant(None, None, [ToolCall("f", [])])];
            && HeadMayMakeUp(context, messages)
            && (RenderRange(context + messages, Thinking, 0, 2) == RenderRange(context, Thinking, 0, 2) <==>
                thought == CLOSING)
  {
    hide RenderRange, CLOSING, THINK_END, ToolBlock, EOS, HeadMayMakeUp;
    var context := [Tool(Some("42")), Assistant(None, Some(thought), [ToolCall("f", []), ToolCall("g", [])])];
    var messages := [User(Some("?")), Assistant(None, None, [ToolCall("f", [])])];
    HeadExample(context, messages);
    SecondMessage(context, messages, thought);
    var full, calls := context + messages, context[1].toolCalls;
    HeadRenders(full, Thinking);
    HeadRenders(context, Thinking);
    TwoMessages(full);
    TwoMessages(context);
    HeadMakesUpIff(context, messages);
    var rest := "" + ToolBlock(calls) + EOS;
    SameThought(CLOSING, THINK_END, rest, thought);
  }

  lemma SameThought(closing: string, mark: string, rest: string, thought: string)
    ensures closing + mark + rest == thought + mark + rest <==> closing == thought
  {
    if closing + mark + rest == thought + mark + rest {
      assert |closing| == |thought|;
      assert (closing + mark + rest)[..|closing|] == closing && (thought + mark + rest)[..|thought|] == thought;
    }
  }

  lemma TwoMessages(messages: seq<Message>)
    requires RenderMessage(0, messages, Thinking).Ok? && RenderMessage(1, messages, Thinking).Ok?
    ensures RenderRange(messages, Thinking, 0, 2).Ok?
    ensures RenderRange(messages, Thinking, 1, 2) == RenderMessage(1, messages, Thinking)
  {
    hide Render;
    RangeOne(messages, Thinking, 0);
    RangeOne(messages, Thinking, 1);
    RangeSplit(messages, Thinking, 0, 1, 2);
  }

  lemma HeadExample(context: seq<Message>, messages: seq<Message>)
    requires |context| == 2 && context[0].Tool? && context[1].Assistant? && |context[1].toolCalls| == 2
    requires |messages| == 2 && messages[0].User? && messages[1].Assistant? && |messages[1].toolCalls| == 1
    ensures HeadMayMakeUp(context, messages) && LastUser(context + messages) == 2
  {
    var full := context + messages;
    assert IsTurn(full[2]) && !IsTurn(full[3]) && !IsTurn(context[0]) && !IsTurn(context[1]);
    assert messages[0] in messages;
  }

  lemma SecondMessage(context: seq<Message>, messages: seq<Message>, thought: string)
    requires |context| == 2 && context[1].Assistant? && context[1].toolCalls != []
    requires context[1].content == None && context[1].reasoning == Some(thought)
    requires LastUser(context) == -1 && LastUser(context + messages) == 2
    ensures var rest := "" + ToolBlock(context[1].toolCalls) + EOS;
            && RenderMessage(1, context + messages, Thinking) == Ok(rest)
            && RenderMessage(1, context, Thinking) == Ok(thought + THINK_END + rest)
  {
    hide ToolBlock, EOS, THINK_END, LastUser;
    var block := ToolBlock(context[1].toolCalls);
    assert thought + THINK_END + "" + block + EOS == thought + THINK_END + ("" + block + EOS);
    assert "" + "" + block + EOS == "" + block + EOS;
  }

  lemma SameMiddle(x: string, a: string, b: string, c: string)
    ensures x + a + c == x + b + c <==> a == b
  {
    assert (x + a + c)[|x|..|x| + |a|] == a;
    assert (x + b + c)[|x|..|x| + |b|] == b;
    assert |x + a + c| == |x| + |a| + |c| && |x + b + c| == |x| + |b| + |c|;
  }

  lemma SystemsRenderAlike(context: seq<Message>, messages: seq<Message>)
    requires forall m :: m in context ==> m.System?
    ensures RenderRange(context + messages, Thinking, 0, |context|) == RenderRange(context, Thinking, 0, |context|)
  {
    forall i: nat | i < |context|
      ensures RenderMessage(i, context + messages, Thinking) == RenderMessage(i, context, Thinking)
    {
      assert context[i].System?;
    }
    hide Render;
    RangeSame(context + messages, context, Thinking, 0, |context|);
  }

  /** A valid context without turns is all system messages, or holds an assistant message. */
  lemma SystemOrAssistant(context: seq<Message>)
    requires context != [] && !context[0].Tool? && LastUser(context) == -1
    requires RenderRange(context, Thinking, 0, |context|).Ok?
    ensures Assistants(context, |context|) > 0 <==> !(forall m :: m in context ==> m.System?)
  {
    if i :| 0 <= i < |context| && !context[i].System? {
      if RenderMessage(i, context, Thinking).Err? {
        hide Render;
        RangeFails(context, Thinking, 0, |context|, i);
      } else {
        var prev := PreviousNonTool(context, i - 1);
        assert !IsTurn(context[i]);
        CountAssistant(context, if context[i].Assistant? then i else prev, |context|);
      }
    } else {
      forall m | m in context ensures m.System? {
        var i :| 0 <= i < |context| && context[i] == m;
      }
      NoAssistants(context, |context|);
    }
  }

  lemma {:induction false} CountAssistant(context: seq<Message>, i: nat, k: nat)
    requires i < k <= |context| && context[i].Assistant?
    ensures Assistants(context, k) > 0
  {
    if i < k - 1 { CountAssistant(context, i, k - 1); }
  }

  lemma {:induction false} NoAssistants(context: seq<Message>, k: nat)
    requires k <= |context| && forall m :: m in context ==> m.System?
    ensures Assistants(context, k) == 0
  {
    if k > 0 {
      assert context[k - 1] in context;
      NoAssistants(context, k - 1);
    }
  }
}
