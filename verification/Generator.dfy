/** The batched generation engine's own logic: chunking, the step loop over streams, completions and offsets. The
    model, the tokenizer and the sampler are function parameters. */
module Generator {
  import opened Wrappers
  import opened Text

  type Token = int

  // ---- generate_batch ----

  /** What one chunk must deliver that fits the engine: one result per prompt, in order, as `serves` relates them. */
  ghost predicate ServesChunk<P(!new), R(!new)>(chunk: seq<P> -> seq<R>, batchSize: nat, serves: (P, R) -> bool) {
    forall ps :: |ps| <= batchSize ==> Served(ps, chunk(ps), serves)
  }

  /** Chunking loses, repeats and reorders nothing: the i-th result serves the i-th prompt. */
  method GenerateBatch<P(!new), R(!new)>(prompts: seq<P>, batchSize: nat, chunk: seq<P> -> seq<R>, ghost serves: (P, R) -> bool)
    returns (all: seq<R>)
    requires batchSize > 0 && ServesChunk(chunk, batchSize, serves)
    ensures Served(prompts, all, serves)
  {
    all := [];
    var i := 0;
    while i < |prompts|
      invariant 0 <= i && |all| == if i <= |prompts| then i else |prompts|
      invariant Served(prompts[..|all|], all, serves)
    {
      var end := if i + batchSize <= |prompts| then i + batchSize else |prompts|;
      var results := chunk(prompts[i..end]);
      ServedJoin(prompts[..i], all, prompts[i..end], results, serves);
      assert prompts[..i] + prompts[i..end] == prompts[..end];
      all := all + results;
      i := i + batchSize;
    }
    assert prompts[..|prompts|] == prompts;
  }

  ghost predicate Served<P(!new), R(!new)>(ps: seq<P>, rs: seq<R>, serves: (P, R) -> bool) {
    |rs| == |ps| && forall i :: 0 <= i < |ps| ==> serves(ps[i], rs[i])
  }

  lemma ServedJoin<P(!new), R(!new)>(ps: seq<P>, rs: seq<R>, qs: seq<P>, ts: seq<R>, serves: (P, R) -> bool)
    requires Served(ps, rs, serves) && Served(qs, ts, serves)
    ensures Served(ps + qs, rs + ts, serves)
  {
  }

  // ---- The step loop ----

  datatype Reason = Length | Stop

  datatype Config = Config(
    target: nat, prefill: nat, eos: set<Token>, stops: seq<string>, window: nat, decode: seq<Token> -> string)

  /** The mutable part of a stream. */
  datatype View = View(ids: seq<Token>, finished: bool, reason: Reason)

  /** Some non-empty stop sequence appears in the decoded last tokens. */
  predicate StopFound(c: Config, ids: seq<Token>) {
    var trailing := if |ids| > c.window then ids[|ids| - c.window..] else ids;
    exists k :: 0 <= k < |c.stops| && c.stops[k] != "" && Contains(c.decode(trailing), c.stops[k])
  }

  function StepStream(c: Config, v: View, trueLength: nat, step: nat, tok: Token): View {
    if v.finished then v
    else
      var ids := v.ids + [tok];
      var stopped := tok in c.eos || StopFound(c, ids);
      View(ids, trueLength + 1 + step >= c.target || stopped, if stopped then Stop else v.reason)
  }

  /** A stream on its own, for `steps` steps, fed the engine's tokens for its slot. */
  function RunStream(c: Config, v: View, trueLength: nat, engine: (nat, nat) -> Token, slot: nat, steps: nat): View {
    if steps == 0 then v
    else StepStream(c, RunStream(c, v, trueLength, engine, slot, steps - 1), trueLength, steps - 1, engine(steps - 1, slot))
  }

  /** `total_steps`; a negative count runs no step. */
  function TotalSteps(c: Config, maxTokens: Option<int>): nat {
    var room := c.target - c.prefill;
    var total := if maxTokens.Some? && maxTokens.value - 1 < room then maxTokens.value - 1 else room;
    if total < 0 then 0 else total
  }

  /** The tokens a request is given at most: as many as it wants, within the target length; the first is never refused. */
  function Wanted(c: Config, maxTokens: Option<int>): nat {
    if maxTokens.Some? && 1 <= maxTokens.value <= 1 + c.target - c.prefill then maxTokens.value
    else if c.target < c.prefill || (maxTokens.Some? && maxTokens.value < 1) then 1
    else 1 + c.target - c.prefill
  }

  /** The last token is an end token, or one of the stop texts shows in the last decoded tokens. */
  predicate Stops(c: Config, ids: seq<Token>)
    requires ids != []
  {
    || ids[|ids| - 1] in c.eos
    || exists stop :: stop in c.stops && stop != "" &&
         Contains(c.decode(if |ids| <= c.window then ids else ids[|ids| - c.window..]), stop)
  }

  /** `ids` is enough: the text may stop there, or the target length is reached. */
  predicate Enough(c: Config, trueLength: nat, ids: seq<Token>)
    requires ids != []
  {
    Stops(c, ids) || trueLength + |ids| - 1 >= c.target
  }

  /** How a stream ends that may have `wanted` tokens: with the engine's tokens for its slot up to the first place, after
      the unchecked first token, where there is enough, or else with all that are wanted. */
  ghost predicate StreamEnd(c: Config, first: Token, trueLength: nat, engine: (nat, nat) -> Token, slot: nat, wanted: nat,
                            w: View) {
    && 1 <= |w.ids| <= wanted && w.ids[0] == first
    && (forall k :: 0 < k < |w.ids| ==> w.ids[k] == engine(k - 1, slot))
    && (forall k :: 1 < k < |w.ids| ==> !Enough(c, trueLength, w.ids[..k]))
    && (w.finished <==> |w.ids| > 1 && Enough(c, trueLength, w.ids))
    && (!w.finished ==> |w.ids| == wanted)
    && (w.reason == Stop <==> |w.ids| > 1 && Stops(c, w.ids))
  }

  class GenerationStream {
    const trueLength: nat
    var generatedIds: seq<Token>
    var finished: bool
    var finishReason: Reason

    /** A stream after prefill, holding its first token unchecked. */
    constructor (trueLength: nat, first: Token)
      ensures this.trueLength == trueLength && State() == View([first], false, Length)
    {
      this.trueLength := trueLength;
      generatedIds, finished, finishReason := [first], false, Length;
    }

    function State(): View
      reads this
    {
      View(generatedIds, finished, finishReason)
    }

    /** One token for an active stream. */
    method Advance(c: Config, step: nat, tok: Token)
      requires !finished
      modifies this
      ensures State() == StepStream(c, old(State()), trueLength, step, tok)
    {
      generatedIds := generatedIds + [tok];
      var currentLen := trueLength + 1 + step;
      var isEos, stopSequenceFound := tok in c.eos, false;
      var start := if |generatedIds| > c.window then |generatedIds| - c.window else 0;
      assert start == 0 ==> generatedIds[start..] == generatedIds;
      var trailingText := c.decode(generatedIds[start..]);
      for k := 0 to |c.stops|
        invariant stopSequenceFound <==>
                  exists j :: 0 <= j < k && c.stops[j] != "" && Contains(trailingText, c.stops[j])
      {
        if c.stops[k] != "" && Contains(trailingText, c.stops[k]) { stopSequenceFound := true; }
      }
      if currentLen >= c.target || isEos || stopSequenceFound {
        finished := true;
        if isEos || stopSequenceFound { finishReason := Stop; }
      }
    }
  }

  ghost function States(streams: seq<GenerationStream>): (r: seq<View>)
    reads set s | s in streams
    ensures |r| == |streams| && forall j :: 0 <= j < |r| ==> r[j] == streams[j].State()
  {
    if streams == [] then [] else States(streams[..|streams| - 1]) + [streams[|streams| - 1].State()]
  }

  ghost predicate AllDifferent(streams: seq<GenerationStream>) {
    forall i, j :: 0 <= i < j < |streams| ==> streams[i] != streams[j]
  }

  /** One engine step: every stream that was active at its start receives its slot's token. */
  method GenerateStep(streams: seq<GenerationStream>, c: Config, engine: (nat, nat) -> Token, step: nat)
    requires AllDifferent(streams)
    modifies set s | s in streams
    ensures forall j :: 0 <= j < |streams| ==>
              streams[j].State() ==
              StepStream(c, old(streams[j].State()), streams[j].trueLength, step, engine(step, j))
  {
    hide StepStream;
    for slot := 0 to |streams|
      invariant forall j :: 0 <= j < slot ==>
                  streams[j].State() ==
                  StepStream(c, old(streams[j].State()), streams[j].trueLength, step, engine(step, j))
      invariant forall j :: slot <= j < |streams| ==> streams[j].State() == old(streams[j].State())
    {
      FinishedStep(c, streams[slot].State(), streams[slot].trueLength, step, engine(step, slot));
      if !streams[slot].finished {
        streams[slot].Advance(c, step, engine(step, slot));
      }
    }
  }

  /** The loop drives the whole batch together, yet each stream ends as it would have ended alone. */
  method RunGenerationLoop(streams: seq<GenerationStream>, c: Config, engine: (nat, nat) -> Token, maxTokens: Option<int>)
    requires AllDifferent(streams)
    modifies set s | s in streams
    ensures forall j :: 0 <= j < |streams| ==>
              streams[j].State() ==
              RunStream(c, old(streams[j].State()), streams[j].trueLength, engine, j, TotalSteps(c, maxTokens))
    ensures forall j, first :: 0 <= j < |streams| && old(streams[j].State()) == View([first], false, Length) ==>
              StreamEnd(c, first, streams[j].trueLength, engine, j, Wanted(c, maxTokens), streams[j].State())
  {
    hide StepStream, StreamEnd, Wanted, TotalSteps;
    forall j, first | 0 <= j < |streams|
      ensures StreamEnd(c, first, streams[j].trueLength, engine, j, Wanted(c, maxTokens),
                RunStream(c, View([first], false, Length), streams[j].trueLength, engine, j, TotalSteps(c, maxTokens)))
    {
      EndsAsWanted(c, first, streams[j].trueLength, engine, j, maxTokens);
    }
    ghost var start := States(streams);
    var total := TotalSteps(c, maxTokens);
    var step := 0;
    while step < total
      invariant 0 <= step <= total
      invariant forall j :: 0 <= j < |streams| ==>
                  streams[j].State() == RunStream(c, start[j], streams[j].trueLength, engine, j, step)
    {
      var active := exists j :: 0 <= j < |streams| && !streams[j].finished;
      if !active {
        forall j | 0 <= j < |streams|
          ensures streams[j].State() == RunStream(c, start[j], streams[j].trueLength, engine, j, total)
        {
          FinishedStays(c, start[j], streams[j].trueLength, engine, j, step, total);
        }
        return;
      }
      GenerateStep(streams, c, engine, step);
      step := step + 1;
    }
  }

  lemma FinishedStep(c: Config, v: View, trueLength: nat, step: nat, tok: Token)
    ensures v.finished ==> StepStream(c, v, trueLength, step, tok) == v
  {
  }

  // ---- What a stream's run guarantees ----

  lemma {:induction false} FinishedStays(c: Config, v: View, trueLength: nat, engine: (nat, nat) -> Token, slot: nat, n: nat, m: nat)
    requires n <= m && RunStream(c, v, trueLength, engine, slot, n).finished
    ensures RunStream(c, v, trueLength, engine, slot, m) == RunStream(c, v, trueLength, engine, slot, n)
  {
    if n < m { FinishedStays(c, v, trueLength, engine, slot, n, m - 1); }
  }

  lemma StopsIff(c: Config, ids: seq<Token>)
    requires ids != []
    ensures Stops(c, ids) <==> ids[|ids| - 1] in c.eos || StopFound(c, ids)
  {
    hide Contains;
    var tail := c.decode(if |ids| <= c.window then ids else ids[|ids| - c.window..]);
    if stop :| stop in c.stops && stop != "" && Contains(tail, stop) {
      var k :| 0 <= k < |c.stops| && c.stops[k] == stop;
    }
    if StopFound(c, ids) {
      var k :| 0 <= k < |c.stops| && c.stops[k] != "" && Contains(tail, c.stops[k]);
      assert c.stops[k] in c.stops;
    }
  }

  lemma OneStep(c: Config, v: View, trueLength: nat, n: nat, tok: Token)
    requires !v.finished && v.reason == Length && |v.ids| == n + 1
    ensures var w := StepStream(c, v, trueLength, n, tok);
            && w.ids == v.ids + [tok] && (w.finished <==> Enough(c, trueLength, w.ids))
            && (w.reason == Stop <==> Stops(c, w.ids))
  {
    StopsIff(c, v.ids + [tok]);
    hide StopFound, Stops;
  }

  lemma {:induction false} EndsAfter(c: Config, first: Token, trueLength: nat, engine: (nat, nat) -> Token, slot: nat, n: nat)
    ensures StreamEnd(c, first, trueLength, engine, slot, n + 1,
              RunStream(c, View([first], false, Length), trueLength, engine, slot, n))
  {
    if n > 0 {
      EndsAfter(c, first, trueLength, engine, slot, n - 1);
      var v := RunStream(c, View([first], false, Length), trueLength, engine, slot, n - 1);
      FinishedStep(c, v, trueLength, n - 1, engine(n - 1, slot));
      if !v.finished {
        OneStep(c, v, trueLength, n - 1, engine(n - 1, slot));
        hide Enough, Stops, StepStream;
        var w := StepStream(c, v, trueLength, n - 1, engine(n - 1, slot));
        forall k | 1 < k < |w.ids| ensures !Enough(c, trueLength, w.ids[..k]) {
          assert w.ids[..k] == v.ids[..k];
          assert k == |v.ids| ==> v.ids[..k] == v.ids;
        }
      }
    }
  }

  /** A stream gets exactly the tokens wanted, unless it has enough before. */
  lemma EndsAsWanted(c: Config, first: Token, trueLength: nat, engine: (nat, nat) -> Token, slot: nat, maxTokens: Option<int>)
    ensures StreamEnd(c, first, trueLength, engine, slot, Wanted(c, maxTokens),
              RunStream(c, View([first], false, Length), trueLength, engine, slot, TotalSteps(c, maxTokens)))
  {
    assert TotalSteps(c, maxTokens) + 1 == Wanted(c, maxTokens);
    hide TotalSteps, Wanted;
    EndsAfter(c, first, trueLength, engine, slot, TotalSteps(c, maxTokens));
  }

  /** Nothing is left open: there is one such end. */
  lemma StreamEndUnique(c: Config, first: Token, trueLength: nat, engine: (nat, nat) -> Token, slot: nat, wanted: nat,
                        v: View, w: View)
    requires StreamEnd(c, first, trueLength, engine, slot, wanted, v)
    requires StreamEnd(c, first, trueLength, engine, slot, wanted, w)
    ensures v == w
  {
    hide Enough, Stops;
    if |v.ids| <= |w.ids| {
      CommonTokens(c, first, trueLength, engine, slot, wanted, v, w);
    } else {
      CommonTokens(c, first, trueLength, engine, slot, wanted, w, v);
    }
  }

  lemma CommonTokens(c: Config, first: Token, trueLength: nat, engine: (nat, nat) -> Token, slot: nat, wanted: nat,
                     v: View, w: View)
    requires StreamEnd(c, first, trueLength, engine, slot, wanted, v) && |v.ids| <= |w.ids|
    requires StreamEnd(c, first, trueLength, engine, slot, wanted, w)
    ensures w.ids[..|v.ids|] == v.ids && (|v.ids| == |w.ids| ==> v.ids == w.ids)
  {
    hide Enough, Stops;
  }

  /** A stream still running after n steps has received exactly n tokens; a finished one at most n and at least one. */
  lemma {:induction false} RunLength(c: Config, v: View, trueLength: nat, engine: (nat, nat) -> Token, slot: nat, n: nat)
    requires !v.finished
    ensures var w := RunStream(c, v, trueLength, engine, slot, n);
            && |v.ids| <= |w.ids| <= |v.ids| + n && v.ids <= w.ids
            && (!w.finished ==> |w.ids| == |v.ids| + n && w.reason == v.reason)
            && (w.finished ==> |w.ids| > |v.ids|)
            && (n > 0 && !w.finished ==> trueLength + n < c.target)
            && (w.finished && w.reason != Stop ==> trueLength + |w.ids| - |v.ids| >= c.target)
  {
    if n > 0 { RunLength(c, v, trueLength, engine, slot, n - 1); }
  }

  /** Streams that entered a loop with as many tokens and are both still running have as many tokens. */
  lemma UnfinishedAlike(c: Config, v: View, w: View, a: nat, b: nat, engine: (nat, nat) -> Token, i: nat, j: nat, n: nat)
    requires !v.finished && !w.finished && |v.ids| == |w.ids|
    requires !RunStream(c, v, a, engine, i, n).finished && !RunStream(c, w, b, engine, j, n).finished
    ensures |RunStream(c, v, a, engine, i, n).ids| == |RunStream(c, w, b, engine, j, n).ids|
  {
    RunLength(c, v, a, engine, i, n);
    RunLength(c, w, b, engine, j, n);
  }

  /** The token budget of a whole request, and the length limit. */
  lemma TokenBudget(c: Config, first: Token, trueLength: nat, engine: (nat, nat) -> Token, slot: nat, maxTokens: Option<int>)
    ensures var ids := RunStream(c, View([first], false, Length), trueLength, engine, slot, TotalSteps(c, maxTokens)).ids;
            && 1 <= |ids|
            && (maxTokens.Some? && maxTokens.value >= 1 ==> |ids| <= maxTokens.value)
            && (c.target >= c.prefill ==> |ids| <= 1 + c.target - c.prefill)
            && (c.target < c.prefill ==> |ids| == 1)
  {
    RunLength(c, View([first], false, Length), trueLength, engine, slot, TotalSteps(c, maxTokens));
  }

  /** An end token is the unchecked first token or the last one, and in the latter case it finished the stream. */
  lemma {:induction false} EndTokenPlaces(c: Config, first: Token, trueLength: nat, engine: (nat, nat) -> Token, slot: nat, n: nat)
    ensures var w := RunStream(c, View([first], false, Length), trueLength, engine, slot, n);
            && |w.ids| >= 1 && w.ids[0] == first
            && (forall i :: 0 < i < |w.ids| - 1 ==> w.ids[i] !in c.eos)
            && (|w.ids| > 1 && w.ids[|w.ids| - 1] in c.eos ==> w.finished && w.reason == Stop)
  {
    if n > 0 { EndTokenPlaces(c, first, trueLength, engine, slot, n - 1); }
  }

  // ---- _build_completions ----

  function CompletionIds(c: Config, ids: seq<Token>): seq<Token> {
    if ids != [] && ids[|ids| - 1] in c.eos then ids[..|ids| - 1] else ids
  }

  /** The completion shows all tokens but an end token in the last place, and so shows an end token exactly when the model
      opened with one and went on. */
  lemma CompletionEndTokensIff(c: Config, first: Token, trueLength: nat, engine: (nat, nat) -> Token, slot: nat, n: nat)
    ensures var ids := RunStream(c, View([first], false, Length), trueLength, engine, slot, n).ids;
            var shown := CompletionIds(c, ids);
            && ids != [] && shown <= ids && |ids| <= |shown| + 1 && (|shown| < |ids| <==> ids[|ids| - 1] in c.eos)
            && (forall i :: 0 < i < |shown| ==> shown[i] !in c.eos)
            && ((exists t :: t in shown && t in c.eos) <==> first in c.eos && |ids| > 1)
  {
    EndTokenPlaces(c, first, trueLength, engine, slot, n);
    var ids := RunStream(c, View([first], false, Length), trueLength, engine, slot, n).ids;
    var shown := CompletionIds(c, ids);
    if first in c.eos && |ids| > 1 { assert shown[0] == first && first in shown; }
  }

  type Logp = real

  datatype Completion = Completion(index: nat, text: string, tokens: seq<Token>, logps: Option<seq<Logp>>, reason: Reason,
                                   offsets: seq<nat>, promptCount: nat, completionCount: nat)

  /** The log probabilities beside `CompletionIds`. */
  function CompletionLogps(c: Config, ids: seq<Token>, logps: seq<Logp>): seq<Logp> {
    if ids != [] && ids[|ids| - 1] in c.eos && |logps| >= |ids| then logps[..|logps| - 1] else logps
  }

  /** A stream's prompt and what the model said about it. */
  datatype Prefill = Prefill(promptIds: seq<Token>, promptLogps: seq<Logp>)

  function CompletionOf(i: nat, v: View, logps: seq<Logp>, pre: Prefill, c: Config, echo: bool, wanted: bool): Completion {
    var shown, shownLogps := CompletionIds(c, v.ids), CompletionLogps(c, v.ids, logps);
    var tokens := if echo then pre.promptIds + shown else shown;
    var all := if echo then pre.promptLogps + shownLogps else shownLogps;
    Completion(i, c.decode(tokens), tokens, if wanted && |tokens| == |all| then Some(all) else None, v.reason,
               Offsets(c.decode, tokens), |pre.promptIds|, |shown|)
  }

  /** With one log probability per token, those of exactly the tokens shown are returned; with one missing they are
      withheld, unless it is that of an end token not shown. */
  lemma LogpsAligned(i: nat, v: View, logps: seq<Logp>, pre: Prefill, c: Config, echo: bool)
    requires |pre.promptLogps| == |pre.promptIds|
    ensures var r := CompletionOf(i, v, logps, pre, c, echo, true);
            && (|logps| == |v.ids| ==>
                r.logps == Some((if echo then pre.promptLogps else []) + logps[..|CompletionIds(c, v.ids)|]))
            && (r.logps.Some? <==> |logps| == |v.ids| || |logps| == |CompletionIds(c, v.ids)|)
  {
    var shown := CompletionIds(c, v.ids);
    if |logps| == |v.ids| {
      assert CompletionLogps(c, v.ids, logps) == logps[..|shown|];
      assert [] + logps[..|shown|] == logps[..|shown|];
    }
  }

  /** One completion per stream, in order. */
  method BuildCompletions(streams: seq<GenerationStream>, logps: seq<seq<Logp>>, prefills: seq<Prefill>, c: Config,
                          echo: bool, wanted: bool) returns (completions: seq<Completion>)
    requires |logps| == |prefills| == |streams|
    ensures |completions| == |streams|
    ensures forall i :: 0 <= i < |streams| ==>
              completions[i] == CompletionOf(i, streams[i].State(), logps[i], prefills[i], c, echo, wanted)
  {
    completions := [];
    for i := 0 to |streams|
      invariant |completions| == i
      invariant forall k :: 0 <= k < i ==>
                  completions[k] == CompletionOf(k, streams[k].State(), logps[k], prefills[k], c, echo, wanted)
    {
      var ids, lps := streams[i].generatedIds, logps[i];
      if ids != [] && ids[|ids| - 1] in c.eos {
        ids := ids[..|ids| - 1];
        if |lps| >= |streams[i].generatedIds| { lps := lps[..|lps| - 1]; }
      }
      var tokens := if echo then prefills[i].promptIds + ids else ids;
      var all := if echo then prefills[i].promptLogps + lps else lps;
      var payload := if wanted && |tokens| == |all| then Some(all) else None;
      var offsets := TokenOffsets(c.decode, tokens);
      completions := completions +
        [Completion(i, c.decode(tokens), tokens, payload, streams[i].finishReason, offsets, |prefills[i].promptIds|, |ids|)];
    }
  }

  // ---- _process_chunk ----

  /** The tokenizer, the first token of each prompt of a chunk, and the token of a step and slot of a chunk. */
  datatype Model = Model(encode: string -> seq<Token>, first: (seq<string>, nat) -> Token,
                         next: (seq<string>, nat, nat) -> Token)

  function StreamOf(m: Model, c: Config, prompts: seq<string>, i: nat, maxTokens: Option<int>): View
    requires i < |prompts|
  {
    RunStream(c, View([m.first(prompts, i)], false, Length), |m.encode(prompts[i])|, EngineOf(m, prompts), i,
              TotalSteps(c, maxTokens))
  }

  function EngineOf(m: Model, prompts: seq<string>): (nat, nat) -> Token {
    (step: nat, slot: nat) => m.next(prompts, step, slot)
  }

  /** The results of a chunk: empty completions when no token is wanted, else one stream per prompt. */
  function ChunkResult(m: Model, c: Config, prompts: seq<string>, maxTokens: Option<int>, echo: bool): (r: seq<Completion>)
    ensures |r| == |prompts|
  {
    if maxTokens.Some? && maxTokens.value <= 0 then
      seq(|prompts|, i requires 0 <= i < |prompts| => Completion(i, "", [], None, Stop, [], 0, 0))
    else
      seq(|prompts|, i requires 0 <= i < |prompts| =>
            CompletionOf(i, StreamOf(m, c, prompts, i, maxTokens), [], Prefill(m.encode(prompts[i]), []), c, echo, false))
  }

  /** What a chunk must give for its i-th prompt. */
  ghost predicate CompletionFits(m: Model, c: Config, prompts: seq<string>, i: nat, maxTokens: Option<int>, echo: bool,
                                 r: Completion)
    requires i < |prompts|
  {
    var own := m.encode(prompts[i]);
    r.index == i &&
    if maxTokens.Some? && maxTokens.value <= 0 then r.tokens == [] && r.text == "" && r.completionCount == 0
    else
      exists w, shown ::
        && StreamEnd(c, m.first(prompts, i), |own|, EngineOf(m, prompts), i, Wanted(c, maxTokens), w)
        && w.ids == shown + (if w.ids[|w.ids| - 1] in c.eos then [w.ids[|w.ids| - 1]] else [])
        && r.tokens == (if echo then own + shown else shown) && r.text == c.decode(r.tokens)
        && r.promptCount == |own| && r.completionCount == |shown| && r.reason == w.reason
        && r.offsets == Offsets(c.decode, r.tokens)
  }

  lemma ChunkFits(m: Model, c: Config, prompts: seq<string>, i: nat, maxTokens: Option<int>, echo: bool)
    requires i < |prompts|
    ensures CompletionFits(m, c, prompts, i, maxTokens, echo, ChunkResult(m, c, prompts, maxTokens, echo)[i])
  {
    hide StreamEnd, RunStream, TotalSteps, Wanted, Offsets;
    if !(maxTokens.Some? && maxTokens.value <= 0) {
      EndsAsWanted(c, m.first(prompts, i), |m.encode(prompts[i])|, EngineOf(m, prompts), i, maxTokens);
      var w := StreamOf(m, c, prompts, i, maxTokens);
      EndNotEmpty(c, m.first(prompts, i), |m.encode(prompts[i])|, EngineOf(m, prompts), i, Wanted(c, maxTokens), w);
      var shown := CompletionIds(c, w.ids);
      assert w.ids == shown + (if w.ids[|w.ids| - 1] in c.eos then [w.ids[|w.ids| - 1]] else []);
    }
  }

  lemma EndNotEmpty(c: Config, first: Token, trueLength: nat, engine: (nat, nat) -> Token, slot: nat, wanted: nat, w: View)
    requires StreamEnd(c, first, trueLength, engine, slot, wanted, w)
    ensures w.ids != []
  {
  }

  method ProcessChunk(m: Model, c: Config, prompts: seq<string>, maxTokens: Option<int>, echo: bool)
    returns (completions: seq<Completion>)
    ensures completions == ChunkResult(m, c, prompts, maxTokens, echo)
    ensures forall i :: 0 <= i < |prompts| ==> CompletionFits(m, c, prompts, i, maxTokens, echo, completions[i])
  {
    hide RunStream, TotalSteps, StepStream, CompletionOf, CompletionFits, StreamEnd, Wanted;
    forall i | 0 <= i < |prompts|
      ensures CompletionFits(m, c, prompts, i, maxTokens, echo, ChunkResult(m, c, prompts, maxTokens, echo)[i])
    {
      ChunkFits(m, c, prompts, i, maxTokens, echo);
    }
    if maxTokens.Some? && maxTokens.value <= 0 {
      return seq(|prompts|, i requires 0 <= i < |prompts| => Completion(i, "", [], None, Stop, [], 0, 0));
    }
    var streams, prefills, logps := [], [], [];
    for i := 0 to |prompts|
      invariant |streams| == |prefills| == |logps| == i && AllDifferent(streams)
      invariant forall j :: 0 <= j < i ==> fresh(streams[j]) && allocated(streams[j])
      invariant forall j :: 0 <= j < i ==>
                  && streams[j].State() == View([m.first(prompts, j)], false, Length)
                  && streams[j].trueLength == |m.encode(prompts[j])|
                  && prefills[j] == Prefill(m.encode(prompts[j]), []) && logps[j] == []
    {
      var stream := new GenerationStream(|m.encode(prompts[i])|, m.first(prompts, i));
      streams, prefills, logps := streams + [stream], prefills + [Prefill(m.encode(prompts[i]), [])], logps + [[]];
    }
    RunGenerationLoop(streams, c, EngineOf(m, prompts), maxTokens);
    completions := BuildCompletions(streams, logps, prefills, c, echo, false);
  }

  /** A completion serves a prompt: it counts that prompt's tokens, shows them when echoed, then no more than the tokens
      wanted. */
  ghost predicate Serves(m: Model, c: Config, maxTokens: Option<int>, echo: bool, prompt: string, r: Completion) {
    if maxTokens.Some? && maxTokens.value <= 0 then r.tokens == []
    else
      && r.promptCount == |m.encode(prompt)|
      && (if echo then m.encode(prompt) <= r.tokens && |r.tokens| == r.promptCount + r.completionCount
          else |r.tokens| == r.completionCount)
      && r.text == c.decode(r.tokens)
      && (maxTokens.Some? ==> r.completionCount <= maxTokens.value)
  }

  /** The generation loop and the building of completions serve every chunk, so chunked generation serves every prompt. */
  lemma ChunkServes(m: Model, c: Config, batchSize: nat, maxTokens: Option<int>, echo: bool)
    ensures ServesChunk(ps => ChunkResult(m, c, ps, maxTokens, echo), batchSize,
                        (p, r) => Serves(m, c, maxTokens, echo, p, r))
  {
    hide RunStream, TotalSteps;
    forall ps
      ensures Served(ps, ChunkResult(m, c, ps, maxTokens, echo), (p, r) => Serves(m, c, maxTokens, echo, p, r))
    {
      forall i | 0 <= i < |ps| ensures Serves(m, c, maxTokens, echo, ps[i], ChunkResult(m, c, ps, maxTokens, echo)[i]) {
        TokenBudget(c, m.first(ps, i), |m.encode(ps[i])|, EngineOf(m, ps), i, maxTokens);
      }
    }
  }

  // ---- _token_offsets ----

  /** Characters that token k adds: the growth of the decoded prefix, or its own length when the prefix shrinks. */
  function PieceLength(decode: seq<Token> -> string, ids: seq<Token>, k: nat): nat
    requires k < |ids|
  {
    var before := if k == 0 then "" else decode(ids[..k]);
    var after := decode(ids[..k + 1]);
    if |after| >= |before| then |after| - |before| else |decode([ids[k]])|
  }

  function PiecesBefore(decode: seq<Token> -> string, ids: seq<Token>, k: nat): nat
    requires k <= |ids|
  {
    if k == 0 then 0 else PiecesBefore(decode, ids, k - 1) + PieceLength(decode, ids, k - 1)
  }

  function Offsets(decode: seq<Token> -> string, ids: seq<Token>): (r: seq<nat>)
    ensures |r| == |ids|
  {
    seq(|ids|, k requires 0 <= k < |ids| => PiecesBefore(decode, ids, k))
  }

  method TokenOffsets(decode: seq<Token> -> string, ids: seq<Token>) returns (offsets: seq<nat>)
    ensures offsets == Offsets(decode, ids)
  {
    offsets := [];
    var pos: nat, decodedSoFar, prefix := 0, "", [];
    for k := 0 to |ids|
      invariant prefix == ids[..k] && decodedSoFar == if k == 0 then "" else decode(ids[..k])
      invariant pos == PiecesBefore(decode, ids, k) && offsets == Offsets(decode, ids)[..k]
    {
      offsets := offsets + [pos];
      prefix := prefix + [ids[k]];
      var newText := decode(prefix);
      var pieceLen := |newText| - |decodedSoFar|;
      if pieceLen < 0 { pieceLen := |decode([ids[k]])|; }
      pos := pos + pieceLen;
      decodedSoFar := newText;
    }
  }

  ghost predicate Sorted(a: seq<int>) {
    forall i, j :: 0 <= i < j < |a| ==> a[i] <= a[j]
  }

  /** Each token moves the offset by the growth of the decoded prefix or, where that shrinks, by its own text. */
  lemma OffsetSteps(decode: seq<Token> -> string, ids: seq<Token>, k: nat)
    requires k < |ids|
    ensures k == 0 ==> Offsets(decode, ids)[0] == 0
    ensures k > 0 ==>
              var before, after := if k == 1 then 0 else |decode(ids[..k - 1])|, |decode(ids[..k])|;
              Offsets(decode, ids)[k] ==
              Offsets(decode, ids)[k - 1] + if after >= before then after - before else |decode([ids[k - 1]])|
  {
    if k > 0 { assert PiecesBefore(decode, ids, k) == PiecesBefore(decode, ids, k - 1) + PieceLength(decode, ids, k - 1); }
  }

  /** Whatever the decoder does, offsets never decrease. */
  lemma {:induction false} OffsetsSorted(decode: seq<Token> -> string, ids: seq<Token>)
    ensures Sorted(Offsets(decode, ids))
  {
    forall i, j | 0 <= i < j < |ids| ensures Offsets(decode, ids)[i] <= Offsets(decode, ids)[j] {
      PiecesGrow(decode, ids, i, j);
    }
  }

  lemma {:induction false} PiecesGrow(decode: seq<Token> -> string, ids: seq<Token>, i: nat, j: nat)
    requires i <= j <= |ids|
    ensures PiecesBefore(decode, ids, i) <= PiecesBefore(decode, ids, j)
  {
    if i < j { PiecesGrow(decode, ids, i, j - 1); }
  }

  /** When decoding a longer prefix never gives a shorter text, each offset is the length of the text before its token. */
  lemma {:induction false} OffsetsExact(decode: seq<Token> -> string, ids: seq<Token>, k: nat)
    requires 0 < k < |ids|
    requires forall i, j :: 0 <= i <= j <= |ids| ==> |decode(ids[..i])| <= |decode(ids[..j])|
    ensures Offsets(decode, ids)[k] == |decode(ids[..k])|
  {
    if k > 1 {
      OffsetsExact(decode, ids, k - 1);
    } else {
      assert PiecesBefore(decode, ids, 0) == 0;
    }
  }
}
