/** The hand-written scanner that reads a completion back into a message. */
module Dsv32Parser {
  import opened Wrappers
  import opened Text
  import opened Dsv32Encoder

  datatype ParseError =
    | InvalidThinking
    | InvalidSummary
    | ToolCallFormat
    | MissingSpecialToken
    | ToolNameFormat
    | ParameterFormat
    | DuplicateParameter
    | ContentAfterToolCalls
    | ContentAtEnd
    | SpecialTokenInContent

  // ---- _read_until_stop ----

  /** Next index, the text before the stop, and the stop matched (None at the end of the text). */
  datatype Read = Read(next: nat, content: string, stop: Option<string>)

  /** One candidate compared against the earliest match so far, as the loop body does. */
  function Nearer(text: string, index: nat, stop: string, best: (nat, Option<string>)): (nat, Option<string>)
    requires index <= |text|
  {
    var pos := Find(text, stop, index);
    if pos.Some? && pos.value < best.0 then (pos.value, Some(stop)) else best
  }

  function Nearest(text: string, index: nat, stops: seq<string>): (r: (nat, Option<string>))
    requires index <= |text|
    ensures index <= r.0 <= |text|
    ensures r.1.None? ==> r.0 == |text|
    ensures r.1.Some? ==> r.1.value in stops && OccursAt(text, r.1.value, r.0)
    ensures forall s, i :: s in stops && s != "" && index <= i < r.0 ==> !OccursAt(text, s, i)
  {
    if stops == [] then (|text|, None)
    else
      var front, s := stops[..|stops| - 1], stops[|stops| - 1];
      assert forall x :: x in stops <==> x in front || x == s;
      Nearer(text, index, s, Nearest(text, index, front))
  }

  function ReadUntil(index: nat, text: string, stops: seq<string>): (r: Read)
    requires index <= |text|
    ensures index <= r.next <= |text|
    ensures r.stop.Some? ==> r.next == index + |r.content| + |r.stop.value| && r.stop.value in stops
    ensures r.stop.None? ==> r.next == |text| == index + |r.content|
  {
    var (pos, stop) := Nearest(text, index, stops);
    if stop.Some? then Read(pos + |stop.value|, text[index..pos], stop) else Read(|text|, text[index..], None)
  }

  /** What was read: the text before the stop, then the stop, then the rest; no stop begins inside the text read. */
  lemma ReadSpec(index: nat, text: string, stops: seq<string>)
    requires index <= |text|
    ensures var r := ReadUntil(index, text, stops);
            && text[index..] == r.content + OrEmpty(r.stop) + text[r.next..]
            && forall s :: s in stops && s != "" ==> FreeOf(r.content, s, text[index + |r.content|..])
  {
    var (pos, stop) := Nearest(text, index, stops);
    ReadIsFree(index, text, stops);
    assert text[index..] == text[index..pos] + text[pos..];
    if stop.Some? { assert text[pos..] == stop.value + text[pos + |stop.value|..]; }
    assert text[|text|..] == "";
    assert text[index..|text|] == text[index..];
    assert index + |ReadUntil(index, text, stops).content| == pos;
  }

  lemma ReadIsFree(index: nat, text: string, stops: seq<string>)
    requires index <= |text|
    ensures var pos := Nearest(text, index, stops).0;
            forall s :: s in stops && s != "" ==> FreeOf(text[index..pos], s, text[pos..])
  {
    var pos := Nearest(text, index, stops).0;
    forall s, i | s in stops && s != "" && 0 <= i < pos - index
      ensures !OccursAt(text[index..pos] + text[pos..], s, i)
    {
      assert text[index..pos] + text[pos..] == text[index..];
      assert !OccursAt(text, s, index + i);
      if i + |s| <= |text| - index { assert text[index..][i..i + |s|] == text[index + i..index + i + |s|]; }
    }
  }

  method ReadUntilStop(index: nat, text: string, stops: seq<string>) returns (r: Read)
    requires index <= |text| && forall s :: s in stops ==> s != ""
    ensures r == ReadUntil(index, text, stops)
  {
    var minPos := |text|;
    var matched: Option<string> := None;
    for k := 0 to |stops|
      invariant (minPos, matched) == Nearest(text, index, stops[..k])
    {
      var s := stops[k];
      assert stops[..k + 1][..k] == stops[..k];
      var pos := Find(text, s, index);
      if pos.Some? && pos.value < minPos {
        minPos := pos.value;
        matched := Some(s);
      }
    }
    assert stops[..|stops|] == stops;
    if matched.Some? {
      r := Read(minPos + |matched.value|, text[index..minPos], matched);
    } else {
      r := Read(|text|, text[index..], None);
    }
  }

  // ---- The two regular expressions ----

  /** Characters matched by `\s` in a Python text pattern. */
  predicate IsSpace(c: char) {
    || '\t' <= c <= '\r' || '\U{1C}' <= c <= ' ' || c == '\U{85}' || c == '\U{A0}' || c == '\U{1680}'
    || '\U{2000}' <= c <= '\U{200A}' || c == '\U{2028}' || c == '\U{2029}' || c == '\U{202F}' || c == '\U{205F}'
    || c == '\U{3000}'
  }

  function SkipSpace(s: string): string {
    if s != "" && IsSpace(s[0]) then SkipSpace(s[1..]) else s
  }

  /** `$` without MULTILINE: the end, or just before a final newline. */
  predicate AtDollar(rest: string) {
    rest == "" || rest == "\n"
  }

  predicate TailAt(s: string, tail: string, i: nat) {
    OccursAt(s, tail, i) && AtDollar(s[i + |tail|..])
  }

  /** `(.*?)tail$` from position `from`: the first place where `tail$` matches. */
  function LazyUpTo(s: string, tail: string, from: nat): (r: Option<nat>)
    requires from <= |s|
    ensures r.Some? ==> from <= r.value && TailAt(s, tail, r.value)
    ensures r.Some? ==> forall i :: from <= i < r.value ==> !TailAt(s, tail, i)
    ensures r.None? ==> forall i :: from <= i ==> !TailAt(s, tail, i)
    decreases |s| - from
  {
    if TailAt(s, tail, from) then Some(from)
    else if from == |s| then None
    else LazyUpTo(s, tail, from + 1)
  }

  const NAME := "name=\""
  const NAME_TAIL := "\">\n"

  /** `^\s*name="(.*?)">\n$` */
  function MatchName(s: string): Option<string> {
    var t := SkipSpace(s);
    if !(NAME <= t) then None
    else
      var r := LazyUpTo(t, NAME_TAIL, |NAME|);
      if r.Some? then Some(t[|NAME|..r.value]) else None
  }

  const KEY := " name=\""
  const IS_TRUE := "\" string=\"true\">"
  const IS_FALSE := "\" string=\"false\">"
  const VALUE_TAIL := "<"

  /** A `string=` marker at `i` from which the rest, `(.*?)<$`, can still match. */
  predicate MarkerAt(s: string, i: nat, isString: bool) {
    var marker := if isString then IS_TRUE else IS_FALSE;
    OccursAt(s, marker, i) && LazyUpTo(s, VALUE_TAIL, i + |marker|).Some?
  }

  function FirstMarker(s: string, from: nat): (r: Option<nat>)
    requires from <= |s|
    ensures r.Some? ==> from <= r.value && (MarkerAt(s, r.value, true) || MarkerAt(s, r.value, false))
    ensures r.Some? ==> forall i, b :: from <= i < r.value ==> !MarkerAt(s, i, b)
    ensures r.None? ==> forall i, b :: from <= i ==> !MarkerAt(s, i, b)
    decreases |s| - from
  {
    if MarkerAt(s, from, true) || MarkerAt(s, from, false) then Some(from)
    else if from == |s| then None
    else FirstMarker(s, from + 1)
  }

  /** `^ name="(.*?)" string="(true|false)">(.*?)<$` */
  function MatchParam(s: string): Option<Arg> {
    if !(KEY <= s) then None
    else
      var k := FirstMarker(s, |KEY|);
      if k.None? then None
      else
        var isString := MarkerAt(s, k.value, true);
        var v := k.value + |if isString then IS_TRUE else IS_FALSE|;
        Some(Arg(s[|KEY|..k.value], s[v..LazyUpTo(s, VALUE_TAIL, v).value], isString))
  }

  // ---- parse_tool_calls ----

  function Keys(args: seq<Arg>): set<string> {
    set a | a in args :: a.key
  }

  /** Result of the parameter loop: the index, the parameters and the stop token it ended on. */
  datatype ArgsRead = ArgsRead(index: nat, args: seq<Arg>, stop: Option<string>)

  /** One turn of the parameter loop. */
  function ParseParam(index: nat, text: string, args: seq<Arg>): (r: Result<ArgsRead, ParseError>)
    requires index <= |text|
    ensures r.Ok? ==> index <= r.value.index <= |text|
    ensures r.Ok? && r.value.stop.Some? ==> index < r.value.index
    ensures r.Ok? ==> |r.value.args| == |args| + 1 && args <= r.value.args
  {
    var r1 := ReadUntil(index, text, [PARAM_END]);
    var a := MatchParam(r1.content);
    if a.None? then Err(ParameterFormat)
    else if a.value.key in Keys(args) then Err(DuplicateParameter)
    else
      var r2 := ReadUntil(r1.next, text, [PARAM, INVOKE_END]);
      if r2.content != ">\n" then Err(ParameterFormat) else Ok(ArgsRead(r2.next, args + [a.value], r2.stop))
  }

  function ParseParams(index: nat, text: string, args: seq<Arg>, stop: Option<string>): (r: Result<ArgsRead, ParseError>)
    requires index <= |text|
    ensures r.Ok? ==> index <= r.value.index <= |text|
    decreases |text| - index
  {
    if stop != Some(PARAM) then Ok(ArgsRead(index, args, stop))
    else
      var step := ParseParam(index, text, args);
      if step.Err? then step
      else if step.value.stop.None? then step
      else ParseParams(step.value.index, text, step.value.args, step.value.stop)
  }

  datatype CallsRead = CallsRead(index: nat, stop: Option<string>, calls: seq<ToolCall>)

  /** One turn of the tool-call loop; `done` when it met the closing token. */
  function ParseCall(index: nat, text: string, calls: seq<ToolCall>): (r: Result<(CallsRead, bool), ParseError>)
    requires index < |text|
    ensures r.Ok? ==> index < r.value.0.index <= |text|
  {
    var r1 := ReadUntil(index, text, [INVOKE, CALLS_END]);
    if r1.content != ">\n" then Err(ToolCallFormat)
    else if r1.stop == Some(CALLS_END) then Ok((CallsRead(r1.next, r1.stop, calls), true))
    else if r1.stop.None? then Err(MissingSpecialToken)
    else
      var r2 := ReadUntil(r1.next, text, [PARAM, INVOKE_END]);
      var name := MatchName(r2.content);
      if name.None? then Err(ToolNameFormat)
      else
        var args := ParseParams(r2.next, text, [], r2.stop);
        if args.Err? then Err(args.error)
        else
          var call := ToolCall(name.value, args.value.args);
          Ok((CallsRead(args.value.index, args.value.stop, calls + [call]), false))
  }

  function ParseCalls(index: nat, text: string, stop: Option<string>, calls: seq<ToolCall>): (r: Result<CallsRead, ParseError>)
    requires index <= |text|
    ensures r.Ok? ==> index <= r.value.index <= |text|
    decreases |text| - index
  {
    if index == |text| then Ok(CallsRead(index, stop, calls))
    else
      var step := ParseCall(index, text, calls);
      if step.Err? then Err(step.error)
      else if step.value.1 then Ok(step.value.0)
      else ParseCalls(step.value.0.index, text, step.value.0.stop, step.value.0.calls)
  }

  method ParseParameterLoop(start: nat, text: string, first: Option<string>)
    returns (result: Result<ArgsRead, ParseError>)
    requires start <= |text|
    ensures result == ParseParams(start, text, [], first)
  {
    hide MatchParam, Nearest;
    var index, args, stop := start, [], first;
    while stop == Some(PARAM)
      invariant index <= |text|
      invariant ParseParams(start, text, [], first) == ParseParams(index, text, args, stop)
      decreases |text| - index, if stop.Some? then 1 else 0
    {
      var r := ReadUntilStop(index, text, [PARAM_END]);
      var a := MatchParam(r.content);
      if a.None? { return Err(ParameterFormat); }
      if a.value.key in Keys(args) { return Err(DuplicateParameter); }
      r := ReadUntilStop(r.next, text, [PARAM, INVOKE_END]);
      if r.content != ">\n" { return Err(ParameterFormat); }
      index, args, stop := r.next, args + [a.value], r.stop;
    }
    result := Ok(ArgsRead(index, args, stop));
  }

  /** Both scanning loops advance the index, so they end on every input. */
  method ParseToolCalls(start: nat, text: string) returns (result: Result<CallsRead, ParseError>)
    requires start <= |text|
    ensures result == ParseCalls(start, text, None, [])
  {
    hide MatchName, Nearest;
    var index, stop, calls := start, None, [];
    while index < |text|
      invariant index <= |text|
      invariant ParseCalls(start, text, None, []) == ParseCalls(index, text, stop, calls)
      decreases |text| - index
    {
      var r := ReadUntilStop(index, text, [INVOKE, CALLS_END]);
      if r.content != ">\n" { return Err(ToolCallFormat); }
      stop := r.stop;
      if stop == Some(CALLS_END) { return Ok(CallsRead(r.next, stop, calls)); }
      if stop.None? { return Err(MissingSpecialToken); }
      r := ReadUntilStop(r.next, text, [PARAM, INVOKE_END]);
      var name := MatchName(r.content);
      if name.None? { return Err(ToolNameFormat); }
      var args := ParseParameterLoop(r.next, text, r.stop);
      if args.Err? { return Err(args.error); }
      index, stop, calls := args.value.index, args.value.stop, calls + [ToolCall(name.value, args.value.args)];
    }
    result := Ok(CallsRead(index, stop, calls));
  }

  // ---- parse_message_from_completion_text ----

  datatype Parsed = Parsed(content: string, reasoning: string, calls: seq<ToolCall>)

  predicate NoSpecialToken(s: string) {
    && !Contains(s, BOS) && !Contains(s, EOS) && !Contains(s, THINK) && !Contains(s, THINK_END) && !Contains(s, DSML)
  }

  function Finish(text: string, index: nat, stop: Option<string>, p: Parsed): Result<Parsed, ParseError> {
    if !(|text| == index && (stop == Some(EOS) || stop.None?)) then Err(ContentAtEnd)
    else if !NoSpecialToken(p.content) || !NoSpecialToken(p.reasoning) then Err(SpecialTokenInContent)
    else Ok(p)
  }

  function ParseSummary(index: nat, text: string, reasoning: string): Result<Parsed, ParseError>
    requires index <= |text|
  {
    var r := ReadUntil(index, text, [EOS, CALLS]);
    if r.stop == Some(CALLS) then
      var c := ParseCalls(r.next, text, None, []);
      if c.Err? then Err(c.error)
      else
        var e := ReadUntil(c.value.index, text, [EOS]);
        if e.content != "" then Err(ContentAfterToolCalls)
        else Finish(text, e.next, e.stop, Parsed(r.content, reasoning, c.value.calls))
    else if r.stop != Some(EOS) then Err(InvalidSummary)
    else Finish(text, r.next, r.stop, Parsed(r.content, reasoning, []))
  }

  function ParseMessage(text: string, thinking: bool): Result<Parsed, ParseError> {
    if thinking then
      var r := ReadUntil(0, text, [THINK_END, CALLS]);
      if r.stop != Some(THINK_END) then Err(InvalidThinking) else ParseSummary(r.next, text, r.content)
    else ParseSummary(0, text, "")
  }

  method ParseMessageFromCompletionText(text: string, mode: Mode) returns (result: Result<Parsed, ParseError>)
    ensures result == ParseMessage(text, mode == Thinking)
  {
    var summary, reasoning, calls := "", "", [];
    var index: nat, stop: Option<string> := 0, None;
    var r: Read;
    if mode == Thinking {
      r := ReadUntilStop(index, text, [THINK_END, CALLS]);
      index, reasoning, stop := r.next, r.content, r.stop;
      if stop != Some(THINK_END) { return Err(InvalidThinking); }
    }
    r := ReadUntilStop(index, text, [EOS, CALLS]);
    index, summary, stop := r.next, r.content, r.stop;
    if stop == Some(CALLS) {
      var c := ParseToolCalls(index, text);
      if c.Err? { return Err(c.error); }
      calls := c.value.calls;
      r := ReadUntilStop(c.value.index, text, [EOS]);
      if r.content != "" { return Err(ContentAfterToolCalls); }
      index, stop := r.next, r.stop;
    } else if stop != Some(EOS) {
      return Err(InvalidSummary);
    }
    if !(|text| == index && (stop == Some(EOS) || stop.None?)) { return Err(ContentAtEnd); }
    if !NoSpecialToken(summary) || !NoSpecialToken(reasoning) { return Err(SpecialTokenInContent); }
    result := Ok(Parsed(summary, reasoning, calls));
  }
}
