/** The DeepSeek-V3.2 chat prompt printer. JSON stays opaque: a tool call carries its decoded arguments as an
    ordered list of (key, text, is-a-string), and tool schemas and response formats are already rendered text. */
module Dsv32Encoder {
  import opened Wrappers
  import opened Text

  const BOS := "<｜begin▁of▁sentence｜>"
  const EOS := "<｜end▁of▁sentence｜>"
  const THINK := "<think>"
  const THINK_END := "</think>"
  const DSML := "｜DSML｜"
  const INVOKE := "<｜DSML｜invoke"
  const INVOKE_END := "</｜DSML｜invoke"
  const PARAM := "<｜DSML｜parameter"
  const PARAM_END := "/｜DSML｜parameter"
  const CALLS := "\n\n<｜DSML｜function_calls"
  const CALLS_END := "</｜DSML｜function_calls>"

  datatype Mode = Chat | Thinking

  datatype Arg = Arg(key: string, value: string, isString: bool)

  datatype ToolCall = ToolCall(name: string, args: seq<Arg>)

  datatype Message =
    | System(content: Option<string>, tools: Option<string>, schema: Option<string>)
    | Developer(content: Option<string>, tools: Option<string>, schema: Option<string>)
    | User(content: Option<string>)
    | Tool(content: Option<string>)
    | Assistant(content: Option<string>, reasoning: Option<string>, toolCalls: seq<ToolCall>)
    | OtherRole

  datatype RenderError =
    | IndexOutOfRange
    | EmptyDeveloper
    | ToolWithoutAssistant
    | ToolWithoutCalls
    | NoReasoningNorCalls
    | UnknownRole

  type Rendered = Result<string, RenderError>

  // ---- Rendering one message ----

  predicate IsTurn(m: Message) {
    m.User? || m.Developer?
  }

  /** Index of the last user or developer message, -1 when there is none. */
  function LastUser(messages: seq<Message>): (r: int)
    ensures -1 <= r < |messages|
    ensures r >= 0 ==> IsTurn(messages[r])
    ensures forall i :: r < i < |messages| ==> !IsTurn(messages[i])
  {
    if messages == [] then -1
    else if IsTurn(messages[|messages| - 1]) then |messages| - 1
    else LastUser(messages[..|messages| - 1])
  }

  method FindLastUserIndex(messages: seq<Message>) returns (last: int)
    ensures last == LastUser(messages)
  {
    last := -1;
    var idx := |messages| - 1;
    while idx > -1
      invariant -1 <= idx < |messages|
      invariant last == -1
      invariant LastUser(messages) == LastUser(messages[..idx + 1])
    {
      assert messages[..idx + 1][..idx] == messages[..idx];
      if IsTurn(messages[idx]) {
        last := idx;
        break;
      }
      idx := idx - 1;
    }
  }

  /** Python's `str.format` of a possibly missing value. */
  function Formatted(content: Option<string>): string {
    match content case Some(s) => s case None => "None"
  }

  /** Python's `value or ""`. */
  function OrEmpty(content: Option<string>): string {
    match content case Some(s) => s case None => ""
  }

  function ThinkMark(open: bool): string {
    if open then THINK else THINK_END
  }

  function ToolsAndSchema(tools: Option<string>, schema: Option<string>): string {
    (if tools.Some? then "\n\n" + tools.value else "") +
    (if schema.Some?
     then "\n\n## Response Format:\n\nYou MUST strictly adhere to the following schema to reply:\n" + schema.value
     else "")
  }

  function UserTurn(content: string): string {
    "<｜User｜>" + content + "<｜Assistant｜>"
  }

  function TrueFalse(b: bool): string {
    if b then "true" else "false"
  }

  function RenderArg(a: Arg): string {
    PARAM + " name=\"" + a.key + "\" string=\"" + TrueFalse(a.isString) + "\">" + a.value + "<" + PARAM_END + ">"
  }

  function RenderArgs(args: seq<Arg>): (r: seq<string>)
    ensures |r| == |args| && forall i :: 0 <= i < |args| ==> r[i] == RenderArg(args[i])
  {
    seq(|args|, i requires 0 <= i < |args| => RenderArg(args[i]))
  }

  method EncodeArgumentsToDsml(args: seq<Arg>) returns (text: string)
    ensures text == JoinLines(RenderArgs(args))
  {
    var parts: seq<string> := [];
    for i := 0 to |args|
      invariant parts == RenderArgs(args)[..i]
    {
      parts := parts + [RenderArg(args[i])];
    }
    assert parts == RenderArgs(args);
    text := JoinLines(parts);
  }

  function RenderCall(c: ToolCall): string {
    INVOKE + " name=\"" + c.name + "\">\n" + JoinLines(RenderArgs(c.args)) + "\n" + INVOKE_END + ">"
  }

  function RenderCalls(calls: seq<ToolCall>): seq<string> {
    seq(|calls|, i requires 0 <= i < |calls| => RenderCall(calls[i]))
  }

  function ToolBlock(calls: seq<ToolCall>): string {
    if calls == [] then ""
    else CALLS + ">\n" + JoinLines(RenderCalls(calls)) + "\n" + CALLS_END
  }

  function AssistantTurn(thinkingPart: string, content: string, calls: seq<ToolCall>): string {
    thinkingPart + content + ToolBlock(calls) + EOS
  }

  function RenderAssistant(m: Message, thinking: bool): Rendered
    requires m.Assistant?
  {
    if thinking && OrEmpty(m.reasoning) == "" && m.toolCalls == [] then Err(NoReasoningNorCalls)
    else
      var thinkingPart := if thinking then OrEmpty(m.reasoning) + THINK_END else "";
      Ok(AssistantTurn(thinkingPart, OrEmpty(m.content), m.toolCalls))
  }

  /** Nearest index at or below `j` that is not a tool message; -1 when there is none. */
  function PreviousNonTool(messages: seq<Message>, j: int): (r: int)
    requires -1 <= j < |messages|
    ensures -1 <= r <= j
    ensures forall k :: r < k <= j ==> messages[k].Tool?
    ensures r >= 0 ==> !messages[r].Tool?
    decreases j + 1
  {
    if j >= 0 && messages[j].Tool? then PreviousNonTool(messages, j - 1) else j
  }

  method LookBack(messages: seq<Message>, index: nat) returns (prev: int)
    requires index < |messages|
    ensures prev == PreviousNonTool(messages, index - 1)
  {
    prev := index - 1;
    while prev >= 0 && messages[prev].Tool?
      invariant -1 <= prev < index
      invariant PreviousNonTool(messages, prev) == PreviousNonTool(messages, index - 1)
      decreases prev + 1
    {
      prev := prev - 1;
    }
  }

  /** The calls a tool result at `index` answers. Python's `messages[-1]` makes index 0 look at the last message. */
  function CallsAnswered(messages: seq<Message>, index: nat): seq<ToolCall>
    requires index < |messages|
  {
    var prev := PreviousNonTool(messages, index - 1);
    var source := messages[if prev >= 0 then prev else |messages| - 1];
    if source.Assistant? then source.toolCalls else []
  }

  function RenderTool(index: nat, messages: seq<Message>, open: bool): Rendered
    requires index < |messages| && messages[index].Tool?
  {
    var prev := PreviousNonTool(messages, index - 1);
    if !(index == 0 || (prev >= 0 && messages[prev].Assistant?)) then Err(ToolWithoutAssistant)
    else
      var order := index - prev;
      var calls := CallsAnswered(messages, index);
      if calls == [] || |calls| < order then Err(ToolWithoutCalls)
      else
        Ok((if order == 1 then "\n\n<function_results>" else "") +
           "\n<result>" + Formatted(messages[index].content) + "</result>" +
           (if order == |calls| then "\n</function_results>\n\n" + ThinkMark(open) else ""))
  }

  /** `render_message`, given the index of the last user turn. */
  function Render(index: nat, messages: seq<Message>, mode: Mode, last: int): Rendered {
    if index >= |messages| then Err(IndexOutOfRange)
    else
      var m := messages[index];
      match m
      case System(content, tools, schema) => Ok(OrEmpty(content) + ToolsAndSchema(tools, schema))
      case Developer(content, tools, schema) =>
        if OrEmpty(content) == "" then Err(EmptyDeveloper)
        else
          Ok(UserTurn(ToolsAndSchema(tools, schema) + "\n\n# The user's message is: " + OrEmpty(content)) +
             ThinkMark(index == last && mode == Thinking))
      case User(content) => Ok(UserTurn(Formatted(content)) + ThinkMark(index == last && mode == Thinking))
      case Tool(_) => RenderTool(index, messages, index >= last && mode == Thinking)
      case Assistant(_, _, _) => RenderAssistant(m, mode == Thinking && index > last)
      case OtherRole => Err(UnknownRole)
  }

  function RenderMessage(index: nat, messages: seq<Message>, mode: Mode): Rendered {
    Render(index, messages, mode, LastUser(messages))
  }

  // ---- Dropping old reasoning ----

  predicate Kept(m: Message, early: bool) {
    !early || !(m.Developer? || m.OtherRole?)
  }

  function WithoutReasoning(m: Message, early: bool): Message {
    if early && m.Assistant? then m.(reasoning := None) else m
  }

  /** The messages before the last user turn: no reasoning, and only the four roles the loop keeps. */
  function DropEarly(messages: seq<Message>): seq<Message> {
    if messages == [] then []
    else
      var front, m := DropEarly(messages[..|messages| - 1]), messages[|messages| - 1];
      if Kept(m, true) then front + [WithoutReasoning(m, true)] else front
  }

  /** Number of messages strictly before the last user turn. */
  function EarlyCount(messages: seq<Message>): (n: nat)
    ensures n <= |messages|
  {
    if LastUser(messages) < 0 then 0 else LastUser(messages)
  }

  function DropThinking(messages: seq<Message>): seq<Message> {
    DropEarly(messages[..EarlyCount(messages)]) + messages[EarlyCount(messages)..]
  }

  /** What the loop has kept of the first `idx` messages. */
  ghost function DropUpTo(messages: seq<Message>, idx: nat): seq<Message>
    requires idx <= |messages|
  {
    var n := EarlyCount(messages);
    if idx <= n then DropEarly(messages[..idx]) else DropEarly(messages[..n]) + messages[n..idx]
  }

  method DropThinkingMessages(messages: seq<Message>) returns (out: seq<Message>)
    ensures out == DropThinking(messages)
  {
    hide DropUpTo, DropThinking;
    out := [];
    DropEnds(messages);
    var last := FindLastUserIndex(messages);
    for idx := 0 to |messages|
      invariant out == DropUpTo(messages, idx)
    {
      var m := messages[idx];
      DropStep(messages, idx);
      if m.User? || m.System? || m.Tool? || idx >= last {
        out := out + [m];
      } else if m.Assistant? {
        out := out + [m.(reasoning := None)];
      }
    }
  }

  lemma DropEnds(messages: seq<Message>)
    ensures DropUpTo(messages, 0) == [] && DropUpTo(messages, |messages|) == DropThinking(messages)
  {
    var n := EarlyCount(messages);
    assert messages[..0] == [] && messages[n..|messages|] == messages[n..];
    DropEarlyNone();
  }

  lemma DropStep(messages: seq<Message>, idx: nat)
    requires idx < |messages|
    ensures var m, early := messages[idx], idx < LastUser(messages);
            DropUpTo(messages, idx + 1) ==
            DropUpTo(messages, idx) + if Kept(m, early) then [WithoutReasoning(m, early)] else []
  {
    hide DropEarly, LastUser, DropUpTo;
    var n := EarlyCount(messages);
    if idx < n {
      hide Kept, WithoutReasoning;
      UpToEarly(messages, idx);
      UpToEarly(messages, idx + 1);
      DropEarlyStep(messages, idx);
    } else {
      UpToLate(messages, idx);
      UpToLate(messages, idx + 1);
      AppendNext(DropEarly(messages[..n]), messages, n, idx);
    }
  }

  lemma UpToEarly(messages: seq<Message>, idx: nat)
    requires idx <= EarlyCount(messages)
    ensures DropUpTo(messages, idx) == DropEarly(messages[..idx])
  {
  }

  lemma UpToLate(messages: seq<Message>, idx: nat)
    requires EarlyCount(messages) <= idx <= |messages|
    ensures var n := EarlyCount(messages); DropUpTo(messages, idx) == DropEarly(messages[..n]) + messages[n..idx]
  {
    hide DropEarly;
    assert messages[idx..idx] == [];
  }

  lemma AppendNext<T>(head: seq<T>, s: seq<T>, lo: nat, hi: nat)
    requires lo <= hi < |s|
    ensures head + s[lo..hi + 1] == head + s[lo..hi] + [s[hi]]
  {
    assert s[lo..hi + 1] == s[lo..hi] + [s[hi]];
  }

  lemma DropEarlyNone()
    ensures DropEarly([]) == []
  {
  }

  lemma DropEarlyStep(messages: seq<Message>, k: nat)
    requires k < |messages|
    ensures DropEarly(messages[..k + 1]) ==
            DropEarly(messages[..k]) +
            (if Kept(messages[k], true) then [WithoutReasoning(messages[k], true)] else [])
  {
    assert messages[..k + 1][..k] == messages[..k];
  }

  // ---- Encoding a conversation ----

  function Then(a: Rendered, b: Rendered): Rendered {
    if a.Err? then a else if b.Err? then b else Ok(a.value + b.value)
  }

  /** Rendering messages `lo..hi` one after the other, stopping at the first error. */
  function RenderRange(messages: seq<Message>, mode: Mode, lo: nat, hi: nat): Rendered
    decreases hi - lo
  {
    if lo >= hi then Ok("") else Then(RenderMessage(lo, messages, mode), RenderRange(messages, mode, lo + 1, hi))
  }

  function FullMessages(messages: seq<Message>, mode: Mode, context: seq<Message>, drop: bool): seq<Message> {
    if mode == Thinking && drop then DropThinking(context + messages) else context + messages
  }

  function Encode(messages: seq<Message>, mode: Mode, context: seq<Message>, drop: bool, addBos: bool): Rendered {
    Then(Ok(if addBos && context == [] then BOS else ""),
         RenderRange(FullMessages(messages, mode, context, drop), mode, |context|, |context| + |messages|))
  }

  method EncodeMessages(messages: seq<Message>, mode: Mode, context: seq<Message>, drop: bool, addBos: bool)
    returns (result: Rendered)
    ensures result == Encode(messages, mode, context, drop, addBos)
  {
    hide Render;
    var full := context + messages;
    var prompt := if addBos && context == [] then BOS else "";
    if mode == Thinking && drop {
      full := DropThinkingMessages(full);
    }
    result := RenderLoop(prompt, full, mode, |context|, |messages|);
  }

  method RenderLoop(start: string, full: seq<Message>, mode: Mode, base: nat, count: nat) returns (result: Rendered)
    ensures result == Then(Ok(start), RenderRange(full, mode, base, base + count))
  {
    hide Render;
    var prompt := start;
    for idx := 0 to count
      invariant Then(Ok(start), RenderRange(full, mode, base, base + count)) ==
                Then(Ok(prompt), RenderRange(full, mode, base + idx, base + count))
    {
      var part := RenderMessage(base + idx, full, mode);
      RenderStep(prompt, full, mode, base + idx, base + count);
      if part.Err? { return part; }
      prompt := prompt + part.value;
    }
    assert prompt + "" == prompt;
    result := Ok(prompt);
  }

  /** Appending one rendered message to the prompt and rendering the rest is rendering the whole remaining range. */
  lemma RenderStep(prompt: string, messages: seq<Message>, mode: Mode, lo: nat, hi: nat)
    requires lo < hi
    ensures var part := RenderMessage(lo, messages, mode);
            Then(Ok(prompt), RenderRange(messages, mode, lo, hi)) ==
            if part.Err? then part else Then(Ok(prompt + part.value), RenderRange(messages, mode, lo + 1, hi))
  {
    var part, rest := RenderMessage(lo, messages, mode), RenderRange(messages, mode, lo + 1, hi);
    assert RenderRange(messages, mode, lo, hi) == Then(part, rest);
    ThenAssoc(prompt, part, rest);
  }

  lemma ThenAssoc(p: string, a: Rendered, b: Rendered)
    ensures Then(Ok(p), Then(a, b)) == Then(Then(Ok(p), a), b)
  {
    if a.Ok? && b.Ok? { assert p + (a.value + b.value) == p + a.value + b.value; }
  }
}
