/** What a prompt is: a conversation read as instructions, questions and answers with their tool results, printed from
    left to right. */
module Dsv32Transcript {
  import opened Wrappers
  import opened Dsv32Encoder
  import opened Dsv32PromptLaws

  // ---- Tool results ----

  function TextOr(content: Option<string>, missing: string): string {
    if content.Some? then content.value else missing
  }

  lemma SameTexts(content: Option<string>)
    ensures Formatted(content) == TextOr(content, "None") && OrEmpty(content) == TextOr(content, "")
  {
  }

  function ResultText(result: Message): string
    requires result.Tool?
  {
    "\n<result>" + TextOr(result.content, "None") + "</result>"
  }

  function EachResult(results: seq<Message>): string
    requires forall r :: r in results ==> r.Tool?
  {
    if results == [] then ""
    else EachResult(results[..|results| - 1]) + ResultText(results[|results| - 1])
  }

  predicate NoTurnAfter(messages: seq<Message>, i: nat) {
    forall t :: i < t < |messages| ==> !IsTurn(messages[t])
  }

  /** An assistant message at `a`, followed by at least `k` tool results. */
  predicate Answered(messages: seq<Message>, a: nat, k: nat) {
    a + k < |messages| && messages[a].Assistant? && forall t :: a < t <= a + k ==> messages[t].Tool?
  }

  function Mark(open: bool): string {
    if open then "<think>" else "</think>"
  }

  function Opening(first: bool): string {
    if first then "\n\n<function_results>" else ""
  }

  function Closing(last: bool, open: bool): string {
    if last then "\n</function_results>\n\n" + Mark(open) else ""
  }

  lemma LastTurn(messages: seq<Message>, i: nat)
    requires i < |messages|
    ensures LastUser(messages) <= i <==> NoTurnAfter(messages, i)
    ensures LastUser(messages) == i <==> IsTurn(messages[i]) && NoTurnAfter(messages, i)
  {
  }

  /** The i-th result after an assistant message is accepted exactly when that message has an i-th call. */
  lemma ResultAt(messages: seq<Message>, mode: Mode, a: nat, i: nat)
    requires Answered(messages, a, i + 1)
    ensures var n, r := |messages[a].toolCalls|, RenderMessage(a + 1 + i, messages, mode);
            && (r.Ok? <==> i < n)
            && (r.Ok? ==> r.value == Opening(i == 0) + ResultText(messages[a + 1 + i]) +
                                     Closing(i + 1 == n, mode == Thinking && NoTurnAfter(messages, a + n)))
  {
    hide LastUser, Formatted, TextOr;
    var head, f, tail := Opening(i == 0), TextOr(messages[a + 1 + i].content, "None"),
                         Closing(i + 1 == |messages[a].toolCalls|, mode == Thinking && NoTurnAfter(messages, a + 1 + i));
    assert head + "\n<result>" + f + "</result>" + tail == head + ("\n<result>" + f + "</result>") + tail;
    SameTexts(messages[a + 1 + i].content);
    assert PreviousNonTool(messages, a + i) == a;
    LastTurn(messages, a + 1 + i);
  }

  lemma OneMore(first: string, before: string, opening: string, result: string, closing: string)
    requires opening == "" || (first == "" && before == "")
    ensures first + before + "" + (opening + result + closing) ==
            (if opening == "" then first else opening) + (before + result) + closing
  {
    if opening == "" {
      assert first + before + "" + ("" + result + closing) == first + (before + result) + closing;
    } else {
      assert "" + "" + "" + (opening + result + closing) == opening + ("" + result) + closing;
    }
  }

  /** Any stretch of the results of one assistant message: the first opens the block, the one that answers the last call
      closes it and sets the mark. */
  lemma {:induction false} ResultsRange(messages: seq<Message>, mode: Mode, a: nat, i: nat, j: nat)
    requires Answered(messages, a, j) && i <= j <= |messages[a].toolCalls|
    ensures forall r :: r in messages[a + 1 + i..a + 1 + j] ==> r.Tool?
    ensures RenderRange(messages, mode, a + 1 + i, a + 1 + j) ==
            Ok(Opening(i == 0 < j) + EachResult(messages[a + 1 + i..a + 1 + j]) +
               Closing(i < j == |messages[a].toolCalls|, mode == Thinking && NoTurnAfter(messages, a + j)))
    decreases j
  {
    hide Render, ResultText, Opening, Closing, NoTurnAfter, LastUser, EachResult;
    NoMarks();
    NoResults();
    if i < j {
      var open := mode == Thinking && NoTurnAfter(messages, a + j);
      ResultsRange(messages, mode, a, i, j - 1);
      ResultAt(messages, mode, a, j - 1);
      RangeSplit(messages, mode, a + 1 + i, a + j, a + 1 + j);
      RangeOne(messages, mode, a + j);
      NextResult(messages, a + 1 + i, a + j);
      OneMore(Opening(i == 0 < j - 1), EachResult(messages[a + 1 + i..a + j]), Opening(j - 1 == 0),
              ResultText(messages[a + j]), Closing(j == |messages[a].toolCalls|, open));
    } else {
      assert messages[a + 1 + i..a + 1 + j] == [];
      assert "" + "" + "" == "";
    }
  }

  lemma NoMarks()
    ensures Opening(false) == "" && forall open :: Closing(false, open) == ""
  {
  }

  lemma NoResults()
    ensures EachResult([]) == ""
  {
  }

  lemma NextResult(messages: seq<Message>, lo: nat, hi: nat)
    requires lo <= hi < |messages| && forall t :: lo <= t <= hi ==> messages[t].Tool?
    ensures forall r :: r in messages[lo..hi + 1] ==> r.Tool?
    ensures forall r :: r in messages[lo..hi] ==> r.Tool?
    ensures EachResult(messages[lo..hi + 1]) == EachResult(messages[lo..hi]) + ResultText(messages[hi])
  {
    assert messages[lo..hi + 1][..hi - lo] == messages[lo..hi];
  }

  // ---- Conversations ----

  datatype Part =
    | Instruction(system: Message)
    | Question(turn: Message)
    | Answer(reply: Message, results: seq<Message>)

  function PartMessages(p: Part): seq<Message> {
    match p
    case Instruction(m) => [m]
    case Question(m) => [m]
    case Answer(m, results) => [m] + results
  }

  function Flat(parts: seq<Part>): seq<Message> {
    if parts == [] then [] else PartMessages(parts[0]) + Flat(parts[1..])
  }

  predicate Asks(parts: seq<Part>) {
    exists p :: p in parts && p.Question?
  }

  /** `open`: the part belongs to the answer being written, so its reasoning is printed. */
  predicate GoodPart(p: Part, open: bool) {
    match p
    case Instruction(m) => m.System?
    case Question(m) => m.User? || (m.Developer? && TextOr(m.content, "") != "")
    case Answer(m, results) =>
      && m.Assistant? && |results| <= |m.toolCalls| && (forall r :: r in results ==> r.Tool?)
      && (open ==> TextOr(m.reasoning, "") != "" || m.toolCalls != [])
  }

  predicate Good(parts: seq<Part>, mode: Mode) {
    parts != [] ==> GoodPart(parts[0], mode == Thinking && !Asks(parts[1..])) && Good(parts[1..], mode)
  }

  function Sections(tools: Option<string>, schema: Option<string>): string {
    match (tools, schema)
    case (None, None) => ""
    case (Some(t), None) => "\n\n" + t
    case (None, Some(s)) =>
      "\n\n## Response Format:\n\nYou MUST strictly adhere to the following schema to reply:\n" + s
    case (Some(t), Some(s)) =>
      "\n\n" + t + "\n\n## Response Format:\n\nYou MUST strictly adhere to the following schema to reply:\n" + s
  }

  function PartText(p: Part, open: bool): string
    requires GoodPart(p, open)
  {
    match p
    case Instruction(m) => TextOr(m.content, "") + Sections(m.tools, m.schema)
    case Question(User(content)) => "<｜User｜>" + TextOr(content, "None") + "<｜Assistant｜>" + Mark(open)
    case Question(m) =>
      "<｜User｜>" + (Sections(m.tools, m.schema) + "\n\n# The user's message is: " + TextOr(m.content, "")) +
      "<｜Assistant｜>" + Mark(open)
    case Answer(m, results) =>
      (if open then TextOr(m.reasoning, "") + "</think>" else "") + TextOr(m.content, "") + ToolBlock(m.toolCalls) + EOS +
      (Opening(results != []) + EachResult(results) + Closing(results != [] && |results| == |m.toolCalls|, open))
  }

  /** The print of a conversation; only the questions still to come matter for a part. */
  function Transcript(parts: seq<Part>, mode: Mode): string
    requires Good(parts, mode)
  {
    if parts == [] then ""
    else PartText(parts[0], mode == Thinking && !Asks(parts[1..])) + Transcript(parts[1..], mode)
  }

  predicate Silent(messages: seq<Message>) {
    forall m :: m in messages ==> !IsTurn(m)
  }

  lemma PartTurns(p: Part)
    requires GoodPart(p, false)
    ensures PartMessages(p) != [] && (Silent(PartMessages(p)) <==> !p.Question?)
    ensures forall t :: 0 < t < |PartMessages(p)| ==> PartMessages(p)[t].Tool?
  {
    assert p.Question? ==> p.turn in PartMessages(p);
  }

  lemma {:induction false} AsksIff(parts: seq<Part>, mode: Mode)
    requires Good(parts, mode)
    ensures Asks(parts) <==> !Silent(Flat(parts))
  {
    if parts != [] {
      var p := parts[0];
      AsksIff(parts[1..], mode);
      PartTurns(p);
      hide GoodPart, PartMessages;
      assert forall q :: q in parts <==> q == p || q in parts[1..];
      assert forall m :: m in Flat(parts) <==> m in PartMessages(p) || m in Flat(parts[1..]);
    }
  }

  /** After the first message of a part, turns come only with what follows the part. */
  lemma SilentAfter(before: seq<Message>, p: Part, after: seq<Message>)
    requires GoodPart(p, false)
    ensures var all := before + PartMessages(p) + after;
            forall i :: |before| <= i < |before| + |PartMessages(p)| ==> (NoTurnAfter(all, i) <==> Silent(after))
  {
    PartTurns(p);
    hide GoodPart, PartMessages;
    var all, end := before + PartMessages(p) + after, |before| + |PartMessages(p)|;
    forall i | |before| <= i < end ensures NoTurnAfter(all, i) <==> Silent(after) {
      assert forall t :: i < t < end ==> all[t] == PartMessages(p)[t - |before|] && !IsTurn(all[t]);
      assert forall t :: end <= t < |all| ==> all[t] == after[t - end];
      if m :| m in after && IsTurn(m) {
        var k :| 0 <= k < |after| && after[k] == m;
        assert all[end + k] == m;
      }
    }
  }

  /** The first message of a part, wherever it stands. */
  lemma FirstPrints(all: seq<Message>, i: nat, p: Part, open: bool, mode: Mode)
    requires i < |all| && GoodPart(p, open) && all[i] == PartMessages(p)[0]
    requires open <==> mode == Thinking && NoTurnAfter(all, i)
    ensures RenderMessage(i, all, mode).Ok?
    ensures !p.Answer? ==> RenderMessage(i, all, mode).value == PartText(p, open)
    ensures p.Answer? ==> RenderMessage(i, all, mode).value ==
                          (if open then TextOr(p.reply.reasoning, "") + "</think>" else "") + TextOr(p.reply.content, "") +
                          ToolBlock(p.reply.toolCalls) + EOS
  {
    hide LastUser, NoTurnAfter, Formatted, ToolBlock, EOS, OrEmpty, EachResult, Opening, Closing;
    LastTurn(all, i);
    forall c ensures Formatted(c) == TextOr(c, "None") && OrEmpty(c) == TextOr(c, "") { SameTexts(c); }
    if p.Instruction? {
      SectionsSame(p.system.tools, p.system.schema);
    } else if p.Question? && p.turn.Developer? {
      SectionsSame(p.turn.tools, p.turn.schema);
    }
  }

  lemma SectionsSame(tools: Option<string>, schema: Option<string>)
    ensures ToolsAndSchema(tools, schema) == Sections(tools, schema)
  {
  }

  lemma PartPrints(before: seq<Message>, p: Part, after: seq<Message>, mode: Mode)
    requires GoodPart(p, mode == Thinking && Silent(after))
    ensures RenderRange(before + PartMessages(p) + after, mode, |before|, |before| + |PartMessages(p)|) ==
            Ok(PartText(p, mode == Thinking && Silent(after)))
  {
    hide Render, RenderRange, NoTurnAfter, Silent, PartText, GoodPart, PartMessages, OrEmpty, ToolBlock, EOS, LastUser;
    var all, at, open := before + PartMessages(p) + after, |before|, mode == Thinking && Silent(after);
    PartShape(p, open);
    SilentAfter(before, p, after);
    if p.Answer? {
      assert all[at + 1..at + 1 + |p.results|] == PartMessages(p)[1..];
      AnswerPrints(all, at, p, open, mode);
    } else {
      RangeOne(all, mode, at);
      FirstPrints(all, at, p, open, mode);
    }
  }

  lemma PartShape(p: Part, open: bool)
    requires GoodPart(p, open)
    ensures GoodPart(p, false) && PartMessages(p) != []
    ensures !p.Answer? ==> |PartMessages(p)| == 1
    ensures p.Answer? ==> PartMessages(p)[0] == p.reply && PartMessages(p)[1..] == p.results
  {
  }

  lemma AnswerPrints(all: seq<Message>, at: nat, p: Part, open: bool, mode: Mode)
    requires p.Answer? && GoodPart(p, open) && at + |p.results| < |all| && all[at] == p.reply
    requires all[at + 1..at + 1 + |p.results|] == p.results
    requires open <==> mode == Thinking && NoTurnAfter(all, at)
    requires open <==> mode == Thinking && NoTurnAfter(all, at + |p.results|)
    ensures RenderRange(all, mode, at, at + 1 + |p.results|) == Ok(PartText(p, open))
  {
    hide Render, RenderRange, LastUser, Formatted, OrEmpty, ToolBlock, EOS, NoTurnAfter, EachResult, Opening, Closing;
    var k := |p.results|;
    RangeOne(all, mode, at);
    FirstPrints(all, at, p, open, mode);
    assert forall t :: at < t <= at + k ==> all[t] == all[at + 1..at + 1 + k][t - at - 1] && all[t] in p.results;
    ResultsRange(all, mode, at, 0, k);
    RangeSplit(all, mode, at, at + 1, at + 1 + k);
    assert p.results != [] <==> 0 == 0 < k;
  }

  /** Wherever it stands, a good conversation is encoded as its transcript. */
  lemma {:induction false} PartsPrint(before: seq<Message>, parts: seq<Part>, mode: Mode)
    requires Good(parts, mode)
    ensures var all := before + Flat(parts); RenderRange(all, mode, |before|, |all|) == Ok(Transcript(parts, mode))
    decreases |parts|
  {
    hide Render, PartText;
    if parts != [] {
      var p, rest := parts[0], parts[1..];
      var next := before + PartMessages(p);
      assert before + Flat(parts) == next + Flat(rest);
      AsksIff(rest, mode);
      PartsPrint(next, rest, mode);
      PartPrints(before, p, Flat(rest), mode);
      RangeSplit(next + Flat(rest), mode, |before|, |next|, |next + Flat(rest)|);
    }
  }

  // ---- Every accepted conversation is of this kind ----

  function RunEnd(messages: seq<Message>, lo: nat): (hi: nat)
    requires lo <= |messages|
    ensures lo <= hi <= |messages| && (hi < |messages| ==> !messages[hi].Tool?)
    ensures forall t :: lo <= t < hi ==> messages[t].Tool?
    decreases |messages| - lo
  {
    if lo < |messages| && messages[lo].Tool? then RunEnd(messages, lo + 1) else lo
  }

  /** What follows an accepted message that is no tool result is a part, up to the next such message. */
  lemma PartRead(messages: seq<Message>, mode: Mode, lo: nat) returns (p: Part, hi: nat)
    requires lo < |messages| && !messages[lo].Tool?
    requires forall i: nat :: lo <= i < |messages| ==> RenderMessage(i, messages, mode).Ok?
    ensures lo < hi <= |messages| && PartMessages(p) == messages[lo..hi]
    ensures hi < |messages| ==> !messages[hi].Tool?
    ensures GoodPart(p, mode == Thinking && Silent(messages[hi..]))
  {
    hide Render, LastUser, NoTurnAfter, Silent;
    var m := messages[lo];
    hi := RunEnd(messages, lo + 1);
    p := if m.System? then Instruction(m) else if IsTurn(m) then Question(m) else Answer(m, messages[lo + 1..hi]);
    TailSilent(messages, lo, hi);
    assert RenderMessage(lo, messages, mode).Ok?;
    if m.Assistant? {
      if lo + 1 < hi { assert RenderMessage(hi - 1, messages, mode).Ok?; }
      AnswerReads(messages, mode, lo, hi);
    } else {
      if lo + 1 < hi {
        assert RenderMessage(lo + 1, messages, mode).Ok?;
        StrayResult(messages, mode, lo + 1);
      }
      OtherReads(messages, mode, lo);
      assert messages[lo..lo + 1] == [m];
    }
  }

  lemma AnswerReads(messages: seq<Message>, mode: Mode, lo: nat, hi: nat)
    requires lo < hi <= |messages| && messages[lo].Assistant? && forall t :: lo < t < hi ==> messages[t].Tool?
    requires RenderMessage(lo, messages, mode).Ok? && (lo + 1 < hi ==> RenderMessage(hi - 1, messages, mode).Ok?)
    ensures var p := Answer(messages[lo], messages[lo + 1..hi]);
            PartMessages(p) == messages[lo..hi] && GoodPart(p, mode == Thinking && NoTurnAfter(messages, lo))
  {
    hide Render, LastUser, NoTurnAfter, ResultText, Opening, Closing;
    Reasons(messages, mode, lo);
    if lo + 1 < hi { ResultAt(messages, mode, lo, hi - lo - 2); }
    assert messages[lo..hi] == [messages[lo]] + messages[lo + 1..hi];
  }

  lemma Reasons(messages: seq<Message>, mode: Mode, i: nat)
    requires i < |messages| && messages[i].Assistant? && RenderMessage(i, messages, mode).Ok?
    ensures mode == Thinking && NoTurnAfter(messages, i) ==> TextOr(messages[i].reasoning, "") != "" || messages[i].toolCalls != []
  {
    hide LastUser, NoTurnAfter, OrEmpty, ToolBlock, EOS;
    LastTurn(messages, i);
    SameTexts(messages[i].reasoning);
  }

  lemma OtherReads(messages: seq<Message>, mode: Mode, lo: nat)
    requires lo < |messages| && !messages[lo].Assistant? && !messages[lo].Tool? && RenderMessage(lo, messages, mode).Ok?
    ensures var m := messages[lo]; m.System? || m.User? || (m.Developer? && TextOr(m.content, "") != "")
  {
    hide LastUser;
    SameTexts(messages[lo].content);
  }

  lemma TailSilent(messages: seq<Message>, lo: nat, hi: nat)
    requires lo < hi <= |messages| && forall t :: lo < t < hi ==> messages[t].Tool?
    ensures NoTurnAfter(messages, lo) <==> Silent(messages[hi..])
  {
    assert forall t :: hi <= t < |messages| ==> messages[t] == messages[hi..][t - hi];
  }

  lemma StrayResult(messages: seq<Message>, mode: Mode, i: nat)
    requires 0 < i < |messages| && messages[i].Tool? && !messages[i - 1].Tool? && !messages[i - 1].Assistant?
    ensures RenderMessage(i, messages, mode).Err?
  {
  }

  lemma {:induction false} PartsRead(messages: seq<Message>, mode: Mode, lo: nat) returns (parts: seq<Part>)
    requires lo <= |messages| && (lo < |messages| ==> !messages[lo].Tool?)
    requires forall i: nat :: lo <= i < |messages| ==> RenderMessage(i, messages, mode).Ok?
    ensures Good(parts, mode) && Flat(parts) == messages[lo..]
    decreases |messages| - lo
  {
    hide Render, GoodPart;
    if lo == |messages| { return []; }
    var p, hi := PartRead(messages, mode, lo);
    var rest := PartsRead(messages, mode, hi);
    AsksIff(rest, mode);
    parts := [p] + rest;
    assert parts[1..] == rest;
    assert messages[lo..hi] + messages[hi..] == messages[lo..];
  }

  // ---- The prompt ----

  ghost predicate Reads(messages: seq<Message>, parts: seq<Part>, mode: Mode, text: string) {
    Flat(parts) == messages && Good(parts, mode) && Transcript(parts, mode) == text
  }

  /** Encoding new messages that do not start inside a block of results succeeds exactly when they are instructions,
      questions and answers with no more results than calls (and, for dropping, nothing is discarded), and then gives
      their transcript, whatever the context is. */
  lemma EncodesIff(messages: seq<Message>, mode: Mode, context: seq<Message>, drop: bool, addBos: bool, text: string)
    requires messages != [] && !messages[0].Tool?
    ensures Encode(messages, mode, context, drop, addBos) == Ok((if addBos && context == [] then BOS else "") + text) <==>
            && (mode == Thinking && drop ==> NothingDropped(context + messages))
            && exists parts :: Reads(messages, parts, mode, text)
  {
    hide Render, DropThinking, NothingDropped, Good, Transcript, Flat, BOS;
    var full := context + messages;
    if mode == Thinking && drop && !NothingDropped(full) {
      DropBreaksPrompt(messages, context, addBos);
    } else {
      if mode == Thinking && drop { DropPreservesPrompt(messages, context, addBos); }
      RangeReads(messages, mode, context, text);
      SameStart(if addBos && context == [] then BOS else "", RenderRange(full, mode, |context|, |full|), text);
    }
  }

  lemma SameStart(start: string, rest: Rendered, text: string)
    ensures Then(Ok(start), rest) == Ok(start + text) <==> rest == Ok(text)
  {
    if rest.Ok? && start + rest.value == start + text {
      assert (start + rest.value)[|start|..] == rest.value && (start + text)[|start|..] == text;
    }
  }

  lemma RangeReads(messages: seq<Message>, mode: Mode, context: seq<Message>, text: string)
    requires messages != [] ==> !messages[0].Tool?
    ensures var full := context + messages;
            RenderRange(full, mode, |context|, |full|) == Ok(text) <==> exists parts :: Reads(messages, parts, mode, text)
  {
    hide Render, Good, Transcript, Flat;
    var full := context + messages;
    if RenderRange(full, mode, |context|, |full|) == Ok(text) {
      forall i: nat | |context| <= i < |full| ensures RenderMessage(i, full, mode).Ok? {
        if RenderMessage(i, full, mode).Err? { RangeFails(full, mode, |context|, |full|, i); }
      }
      var parts := PartsRead(full, mode, |context|);
      assert full[|context|..] == messages;
      PartsPrint(context, parts, mode);
      assert Reads(messages, parts, mode, text);
    }
    if parts :| Reads(messages, parts, mode, text) {
      PartsPrint(context, parts, mode);
    }
  }

  /** The context ends with the assistant message at `a` and results of it. */
  predicate InResults(context: seq<Message>, a: nat) {
    a < |context| && context[a].Assistant? && forall t :: a < t < |context| ==> context[t].Tool?
  }

  /** The messages are the k results that come next and a conversation, and `text` the rest of the block and its
      transcript. */
  ghost predicate ReadsOn(context: seq<Message>, a: nat, messages: seq<Message>, k: nat, mode: Mode, parts: seq<Part>,
                          text: string)
    requires InResults(context, a) && k <= |messages| && forall r :: r in messages[..k] ==> r.Tool?
  {
    var answered, n := |context| - a - 1, |context[a].toolCalls|;
    && answered + k <= n && Flat(parts) == messages[k..] && Good(parts, mode)
    && text == Opening(answered == 0) + EachResult(messages[..k]) +
               Closing(answered + k == n, mode == Thinking && !Asks(parts)) + Transcript(parts, mode)
  }

  /** New messages that start with k results of the assistant message at `a` are encoded exactly when there are calls for
      all results so far and what follows is a conversation. */
  lemma ContinuesIff(messages: seq<Message>, k: nat, mode: Mode, context: seq<Message>, a: nat, text: string)
    requires InResults(context, a) && 0 < k <= |messages|
    requires (forall r :: r in messages[..k] ==> r.Tool?) && (k < |messages| ==> !messages[k].Tool?)
    ensures var full := context + messages;
            RenderRange(full, mode, |context|, |full|) == Ok(text) <==>
            exists parts :: ReadsOn(context, a, messages, k, mode, parts, text)
  {
    hide Render, RenderRange, Good, Transcript, Flat, EachResult, Opening, Closing, NoTurnAfter, Asks, Silent;
    var full, i := context + messages, |context| - a - 1;
    var m := |context| + k;
    assert forall t :: |context| <= t < m ==> full[t] == messages[..k][t - |context|] && full[t] in messages[..k];
    if i + k > |context[a].toolCalls| {
      TooMany(full, mode, a, i, k);
    } else {
      ResultsRange(full, mode, a, i, i + k);
      assert full[a + 1 + i..a + 1 + i + k] == messages[..k];
      RangeSplit(full, mode, |context|, m, |full|);
      TailSilent(full, a + i + k, m);
      assert full[m..] == messages[k..] && full == full[..m] + messages[k..];
      var block, rest := RenderRange(full, mode, |context|, m).value, RenderRange(full, mode, m, |full|);
      forall parts | Flat(parts) == messages[k..] && Good(parts, mode)
        ensures rest == Ok(Transcript(parts, mode)) && (Asks(parts) <==> !Silent(messages[k..]))
      {
        PartsPrint(full[..m], parts, mode);
        AsksIff(parts, mode);
      }
      if rest.Ok? {
        RangeReads(messages[k..], mode, full[..m], rest.value);
        var parts :| Reads(messages[k..], parts, mode, rest.value);
        assert block + rest.value == text ==> ReadsOn(context, a, messages, k, mode, parts, text);
      }
    }
  }

  lemma TooMany(full: seq<Message>, mode: Mode, a: nat, i: nat, k: nat)
    requires Answered(full, a, i + k) && i + k > |full[a].toolCalls| && k > 0
    ensures RenderRange(full, mode, a + 1 + i, |full|).Err?
  {
    hide Render;
    var n := |full[a].toolCalls|;
    var over := if i < n then n else i;
    ResultAt(full, mode, a, over);
    RangeFails(full, mode, a + 1 + i, |full|, a + 1 + over);
  }
}
