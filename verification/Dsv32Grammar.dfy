/** Exactly which texts the completion parser accepts: a grammar with the layouts its patterns allow and the places
    where its loops let a text end, and the proof that acceptance is derivability in it. */
module Dsv32Grammar {
  import opened Wrappers
  import opened Text
  import opened Dsv32Encoder
  import opened Dsv32Parser
  import opened Dsv32RoundTrip
  import opened Dsv32Completion

  // ---- What the two patterns match ----

  predicate AllSpace(s: string) {
    forall i :: 0 <= i < |s| ==> IsSpace(s[i])
  }

  function NameText(space: string, name: string, blank: bool): string {
    space + (NAME + name + NAME_TAIL + Blank(blank))
  }

  /** The name pattern matches exactly white space, the name in its frame, and at most one line feed more. */
  lemma MatchNameIff(s: string, name: string)
    ensures MatchName(s) == Some(name) <==> exists space, blank :: AllSpace(space) && s == NameText(space, name, blank)
  {
    if MatchName(s) == Some(name) {
      var space, blank := NameBack(s, name);
      assert AllSpace(space) && s == NameText(space, name, blank);
    }
    if space, blank :| AllSpace(space) && s == NameText(space, name, blank) {
      NameForward(space, name, blank);
    }
  }

  lemma {:induction false} SpaceSkippedAll(space: string, t: string)
    requires AllSpace(space) && t != "" && !IsSpace(t[0])
    ensures SkipSpace(space + t) == t
  {
    if space == "" {
      assert space + t == t;
    } else {
      SpaceSkippedAll(space[1..], t);
      assert (space + t)[1..] == space[1..] + t;
    }
  }

  lemma {:induction false} SkippedIsSpace(s: string)
    ensures |SkipSpace(s)| <= |s| && AllSpace(s[..|s| - |SkipSpace(s)|]) && s[|s| - |SkipSpace(s)|..] == SkipSpace(s)
  {
    if s != "" && IsSpace(s[0]) {
      SkippedIsSpace(s[1..]);
      var n := |s| - |SkipSpace(s)|;
      assert s[..n] == [s[0]] + s[1..][..n - 1] && s[n..] == s[1..][n - 1..];
    }
  }

  lemma NameForward(space: string, name: string, blank: bool)
    requires AllSpace(space)
    ensures MatchName(NameText(space, name, blank)) == Some(name)
  {
    var t := NAME + name + NAME_TAIL + Blank(blank);
    MatchNameRendered(name, blank);
    assert KEY + name + NAME_TAIL + Blank(blank) == " " + t;
    assert t[0] == 'n' && !IsSpace(t[0]);
    hide NAME, NAME_TAIL, KEY, LazyUpTo, IsSpace;
    FirstIsSpace();
    SpaceSkippedAll(" ", t);
    SpaceSkippedAll(space, t);
  }

  lemma FirstIsSpace()
    ensures AllSpace(" ")
  {
  }

  lemma NameBack(s: string, name: string) returns (space: string, blank: bool)
    requires MatchName(s) == Some(name)
    ensures AllSpace(space) && s == NameText(space, name, blank)
  {
    hide NAME, NAME_TAIL, LazyUpTo;
    var t := SkipSpace(s);
    SkippedIsSpace(s);
    space := s[..|s| - |t|];
    var r := LazyUpTo(t, NAME_TAIL, |NAME|).value;
    blank := t[r + |NAME_TAIL|..] != "";
    TailParts(t, NAME_TAIL, |NAME|, r);
    assert t[..|NAME|] == NAME;
    assert t == NAME + name + NAME_TAIL + Blank(blank);
    assert s == space + t;
  }

  /** A text up to a matched tail, the tail, and at most one line feed. */
  lemma TailParts(t: string, tail: string, from: nat, r: nat)
    requires from <= r <= |t| && TailAt(t, tail, r)
    ensures t == t[..from] + t[from..r] + tail + Blank(t[r + |tail|..] != "")
  {
    assert t == t[..from] + t[from..r] + t[r..r + |tail|] + t[r + |tail|..];
  }

  /** The parameter pattern matches exactly the printed body, with at most one line feed more, of an argument whose key
      holds no marker. */
  lemma MatchParamIff(s: string, a: Arg)
    ensures MatchParam(s) == Some(a) <==>
            && !Contains(a.key, IS_TRUE) && !Contains(a.key, IS_FALSE)
            && (s == ArgBody(a) + Blank(false) || s == ArgBody(a) + Blank(true))
  {
    hide MatchParam, ArgBody, IS_TRUE, IS_FALSE, Contains, Blank;
    if MatchParam(s) == Some(a) { ParamBack(s, a); }
    if !Contains(a.key, IS_TRUE) && !Contains(a.key, IS_FALSE) {
      MatchParamRendered(a, false);
      MatchParamRendered(a, true);
    }
  }

  lemma ParamBack(s: string, a: Arg)
    requires MatchParam(s) == Some(a)
    ensures !Contains(a.key, IS_TRUE) && !Contains(a.key, IS_FALSE)
    ensures s == ArgBody(a) + Blank(false) || s == ArgBody(a) + Blank(true)
  {
    hide KEY, IS_TRUE, IS_FALSE, VALUE_TAIL, MatchParam, Contains, Blank, TailAt;
    var k, v, end := ParamParts(s, a);
    TailParts(s, VALUE_TAIL, v, end);
    FourParts(s, |KEY|, k, v);
  }

  lemma ParamParts(s: string, a: Arg) returns (k: nat, v: nat, end: nat)
    requires MatchParam(s) == Some(a)
    ensures !Contains(a.key, IS_TRUE) && !Contains(a.key, IS_FALSE)
    ensures |KEY| <= k <= v <= end <= |s| && s[..|KEY|] == KEY && s[|KEY|..k] == a.key
    ensures s[k..v] == (if a.isString then IS_TRUE else IS_FALSE) && s[v..end] == a.value && TailAt(s, VALUE_TAIL, end)
  {
    hide KEY, IS_TRUE, IS_FALSE, VALUE_TAIL, LazyUpTo, FirstMarker, Contains;
    k := FirstMarker(s, |KEY|).value;
    NoMarkerBefore(s, k, true);
    NoMarkerBefore(s, k, false);
    v := k + |if a.isString then IS_TRUE else IS_FALSE|;
    end := LazyUpTo(s, VALUE_TAIL, v).value;
  }

  lemma FourParts(s: string, i: nat, j: nat, k: nat)
    requires i <= j <= k <= |s|
    ensures s[..k] == s[..i] + s[i..j] + s[j..k]
  {
  }

  // ---- Syntax trees ----

  /** A tool call as written: the text between its opening token and the next token, and one text per parameter. */
  datatype Piece = Piece(head: string, bodies: seq<string>)

  /** How a tool block ends: with its closing token; by the end of the text after the opening token or after a whole
      call; or by the end of the text inside the last call, after its name or after one of its parameters. */
  datatype Ending = Closed | CutBetweenCalls | CutInCall

  datatype Block = Block(pieces: seq<Piece>, ending: Ending, eos: bool)

  datatype Tree = Tree(reasoning: string, content: string, block: Option<Block>)

  predicate OkHead(head: string) {
    MatchName(head).Some? && !Contains(head, PARAM) && !Contains(head, INVOKE_END)
  }

  predicate OkBody(body: string) {
    MatchParam(body).Some? && !Contains(body, PARAM_END)
  }

  predicate OkBodies(bodies: seq<string>) {
    forall i :: 0 <= i < |bodies| ==> OkBody(bodies[i])
  }

  function ArgsOf(bodies: seq<string>): (r: seq<Arg>)
    requires OkBodies(bodies)
    ensures |r| == |bodies|
  {
    seq(|bodies|, i requires 0 <= i < |bodies| => MatchParam(bodies[i]).value)
  }

  ghost predicate OkPiece(p: Piece) {
    OkHead(p.head) && OkBodies(p.bodies) && DistinctKeys(ArgsOf(p.bodies))
  }

  ghost predicate OkPieces(pieces: seq<Piece>) {
    forall i :: 0 <= i < |pieces| ==> OkPiece(pieces[i])
  }

  ghost function CallsOf(pieces: seq<Piece>): (r: seq<ToolCall>)
    requires OkPieces(pieces)
    ensures |r| == |pieces|
  {
    seq(|pieces|, i requires 0 <= i < |pieces| => ToolCall(MatchName(pieces[i].head).value, ArgsOf(pieces[i].bodies)))
  }

  ghost predicate WellFormed(t: Tree, thinking: bool) {
    && NoSpecialToken(t.content) && NoSpecialToken(t.reasoning) && (thinking || t.reasoning == "")
    && (t.block.Some? ==>
        var b := t.block.value;
        && OkPieces(b.pieces) && (b.ending.CutInCall? ==> b.pieces != []) && (b.eos ==> b.ending.Closed?))
  }

  ghost function Meaning(t: Tree): Parsed
    requires t.block.Some? ==> OkPieces(t.block.value.pieces)
  {
    Parsed(t.content, t.reasoning, if t.block.Some? then CallsOf(t.block.value.pieces) else [])
  }

  // ---- Their texts ----

  /** The token after a name or a parameter: another parameter, the end of the call, or nothing. */
  function StopOf(bodies: seq<string>, closed: bool): Option<string> {
    if bodies != [] then Some(PARAM) else if closed then Some(INVOKE_END) else None
  }

  /** What follows that token. */
  function BodiesText(bodies: seq<string>, closed: bool, tail: string): string {
    if bodies == [] then if closed then tail else ""
    else
      bodies[0] +
      (PARAM_END + (">\n" + (OrEmpty(StopOf(bodies[1..], closed)) + BodiesText(bodies[1..], closed, tail))))
  }

  function PieceText(p: Piece, closed: bool, tail: string): string {
    p.head + (OrEmpty(StopOf(p.bodies, closed)) + BodiesText(p.bodies, closed, tail))
  }

  /** The block after its opening token. */
  function BlockText(pieces: seq<Piece>, ending: Ending, tail: string): string {
    if pieces == [] then if ending.Closed? then ">\n" + (CALLS_END + tail) else ""
    else
      var closed := !(ending.CutInCall? && |pieces| == 1);
      ">\n" + (INVOKE + PieceText(pieces[0], closed, BlockText(pieces[1..], ending, tail)))
  }

  function SummaryText(t: Tree): string {
    t.content +
    match t.block
    case None => EOS
    case Some(b) => CALLS + BlockText(b.pieces, b.ending, if b.eos then EOS else "")
  }

  function Unparse(t: Tree, thinking: bool): string {
    if thinking then t.reasoning + (THINK_END + SummaryText(t)) else SummaryText(t)
  }

  // ---- Derivable texts are accepted ----

  lemma ReadToEnd(index: nat, text: string, stops: seq<string>, content: string)
    requires index <= |text| && text[index..] == content
    requires forall s :: s in stops ==> s != "" && !Contains(content, s)
    ensures ReadUntil(index, text, stops) == Read(|text|, content, None)
  {
    forall s, i: nat | s in stops && index <= i ensures !OccursAt(text, s, i) {
      assert !OccursAt(content, s, i - index);
      if i + |s| <= |text| {
        SliceOfSlice(text, index, |text|, i - index, i - index + |s|);
        assert text[index..|text|] == content;
      }
    }
  }

  lemma HeadScans(index: nat, text: string, head: string, stop: Option<string>, rest: string)
    requires index <= |text| && text[index..] == head + (OrEmpty(stop) + rest) && OkHead(head)
    requires stop == Some(PARAM) || stop == Some(INVOKE_END) || (stop.None? && rest == "")
    ensures |rest| <= |text| && text[|text| - |rest|..] == rest
    ensures ReadUntil(index, text, [PARAM, INVOKE_END]) == Read(|text| - |rest|, head, stop)
  {
    hide Nearest, PARAM, INVOKE_END, MatchName, Contains;
    AngleTokens();
    TokensDiffer();
    if stop.Some? {
      NoStraddleByHead(PARAM, stop.value + rest, '<');
      NoStraddleByHead(INVOKE_END, stop.value + rest, '<');
      FreeOfIntro(head, PARAM, stop.value + rest);
      FreeOfIntro(head, INVOKE_END, stop.value + rest);
      ParamOrInvokeEnd(stop.value, rest);
      assert head + (stop.value + rest) == head + stop.value + rest;
      ReadStep(index, text, [PARAM, INVOKE_END], head, stop.value, rest);
    } else {
      assert head + ("" + "") == head;
      ReadToEnd(index, text, [PARAM, INVOKE_END], head);
    }
  }

  /** After a parameter: a fixed text, then the next token or the end of the text. */
  lemma AfterBody(index: nat, text: string, stop: Option<string>, rest: string)
    requires index <= |text| && text[index..] == ">\n" + (OrEmpty(stop) + rest)
    requires stop == Some(PARAM) || stop == Some(INVOKE_END) || (stop.None? && rest == "")
    ensures |rest| <= |text| && text[|text| - |rest|..] == rest
    ensures ReadUntil(index, text, [PARAM, INVOKE_END]) == Read(|text| - |rest|, ">\n", stop)
  {
    hide Nearest, PARAM, INVOKE_END, Contains;
    if stop.Some? {
      AfterParam(index, text, stop.value, rest);
    } else {
      AngleTokens();
      NoHeadNoOccurrence(">\n", PARAM);
      NoHeadNoOccurrence(">\n", INVOKE_END);
      assert ">\n" + ("" + "") == ">\n";
      ReadToEnd(index, text, [PARAM, INVOKE_END], ">\n");
    }
  }

  lemma BodyParses(index: nat, text: string, done: seq<Arg>, body: string, stop: Option<string>, rest: string)
    requires index <= |text| && text[index..] == body + (PARAM_END + (">\n" + (OrEmpty(stop) + rest)))
    requires stop == Some(PARAM) || stop == Some(INVOKE_END) || (stop.None? && rest == "")
    requires OkBody(body) && MatchParam(body).value.key !in Keys(done)
    ensures |rest| < |text| && text[|text| - |rest|..] == rest
    ensures ParseParam(index, text, done) == Ok(ArgsRead(|text| - |rest|, done + [MatchParam(body).value], stop))
  {
    hide ReadUntil, MatchParam, PARAM, INVOKE_END, PARAM_END, Contains;
    BodyReads(index, text, body, ">\n" + (OrEmpty(stop) + rest));
    AfterBody(index + |body| + |PARAM_END|, text, stop, rest);
  }

  lemma BodyReads(index: nat, text: string, body: string, after: string)
    requires index <= |text| && text[index..] == body + (PARAM_END + after) && OkBody(body)
    ensures var next := index + |body| + |PARAM_END|;
            && ReadUntil(index, text, [PARAM_END]) == Read(next, body, Some(PARAM_END))
            && next <= |text| && text[next..] == after
  {
    hide Nearest, MatchParam, PARAM_END, Contains, ReadUntil, FreeOf;
    SlashToken();
    NoStraddleByHead(PARAM_END, PARAM_END + after, '/');
    FreeOfIntro(body, PARAM_END, PARAM_END + after);
    assert body + (PARAM_END + after) == body + PARAM_END + after;
    ReadStep(index, text, [PARAM_END], body, PARAM_END, after);
  }

  lemma NextKeyIsNew(done: seq<Arg>, args: seq<Arg>)
    requires args != [] && DistinctKeys(done + args)
    ensures args[0].key !in Keys(done)
  {
    var all := done + args;
    assert all[|done|] == args[0];
    forall x | x in done ensures x.key != args[0].key {
      var i :| 0 <= i < |done| && done[i] == x;
      assert all[i] == x;
    }
  }

  lemma {:induction false} BodiesParse(index: nat, text: string, done: seq<Arg>, bodies: seq<string>, closed: bool, tail: string)
    requires index <= |text| && text[index..] == BodiesText(bodies, closed, tail) && (closed || tail == "")
    requires OkBodies(bodies) && DistinctKeys(done + ArgsOf(bodies))
    ensures |tail| <= |text| && text[|text| - |tail|..] == tail
    ensures ParseParams(index, text, done, StopOf(bodies, closed)) ==
            Ok(ArgsRead(|text| - |tail|, done + ArgsOf(bodies), if closed then Some(INVOKE_END) else None))
    decreases |bodies|
  {
    hide ParseParam, OkBody, MatchParam, INVOKE_END, PARAM, PARAM_END;
    TokensDiffer();
    if bodies == [] {
      assert done + ArgsOf(bodies) == done;
    } else {
      var rest := BodiesText(bodies[1..], closed, tail);
      var args := ArgsOf(bodies);
      var a := args[0];
      NextKeyIsNew(done, args);
      BodyParses(index, text, done, bodies[0], StopOf(bodies[1..], closed), rest);
      assert args == [a] + ArgsOf(bodies[1..]) && done + args == done + [a] + ArgsOf(bodies[1..]);
      BodiesParse(|text| - |rest|, text, done + [a], bodies[1..], closed, tail);
    }
  }

  lemma PieceParses(index: nat, text: string, done: seq<ToolCall>, p: Piece, closed: bool, tail: string)
    requires index < |text| && text[index..] == ">\n" + (INVOKE + PieceText(p, closed, tail)) && (closed || tail == "")
    requires OkPiece(p)
    ensures |tail| <= |text| && text[|text| - |tail|..] == tail
    ensures var call := ToolCall(MatchName(p.head).value, ArgsOf(p.bodies));
            var stop := if closed then Some(INVOKE_END) else None;
            ParseCall(index, text, done) == Ok((CallsRead(|text| - |tail|, stop, done + [call]), false))
  {
    hide ReadUntil, MatchName, ParseParams, OkHead, BodiesText, DistinctKeys, INVOKE, INVOKE_END, PARAM, CALLS_END;
    TokensDiffer();
    NextCall(index, text, PieceText(p, closed, tail));
    var start := index + 2 + |INVOKE|;
    var rest := BodiesText(p.bodies, closed, tail);
    StopNothing(p.bodies, closed, tail);
    HeadScans(start, text, p.head, StopOf(p.bodies, closed), rest);
    HeadMatches(p.head);
    assert [] + ArgsOf(p.bodies) == ArgsOf(p.bodies);
    BodiesParse(|text| - |rest|, text, [], p.bodies, closed, tail);
  }

  lemma HeadMatches(head: string)
    requires OkHead(head)
    ensures MatchName(head).Some?
  {
  }

  lemma StopNothing(bodies: seq<string>, closed: bool, tail: string)
    ensures var stop := StopOf(bodies, closed);
            stop == Some(PARAM) || stop == Some(INVOKE_END) || (stop.None? && BodiesText(bodies, closed, tail) == "")
  {
  }

  lemma {:induction false} BlockParses(index: nat, text: string, stop: Option<string>, done: seq<ToolCall>,
                                       pieces: seq<Piece>, ending: Ending, tail: string)
    requires index <= |text| && text[index..] == BlockText(pieces, ending, tail) && (ending.Closed? || tail == "")
    requires OkPieces(pieces) && (ending.CutInCall? ==> pieces != [])
    ensures |tail| <= |text| && text[|text| - |tail|..] == tail
    ensures ParseCalls(index, text, stop, done).Ok?
    ensures var r := ParseCalls(index, text, stop, done).value;
            r.index == |text| - |tail| && r.calls == done + CallsOf(pieces)
    decreases |pieces|
  {
    hide ParseCall, PieceText, OkPiece, INVOKE, CALLS_END, INVOKE_END;
    if pieces == [] {
      if ending.Closed? { CallsEndParses(index, text, done, tail); }
      assert done + CallsOf(pieces) == done;
    } else {
      var rest := BlockText(pieces[1..], ending, tail);
      var closed := !(ending.CutInCall? && |pieces| == 1);
      PieceParses(index, text, done, pieces[0], closed, rest);
      var call := CallsOf(pieces)[0];
      assert CallsOf(pieces) == [call] + CallsOf(pieces[1..]);
      assert done + CallsOf(pieces) == done + [call] + CallsOf(pieces[1..]);
      if ending.CutInCall? && |pieces| == 1 {
        assert CallsOf(pieces[1..]) == [];
        assert |text| - |rest| == |text|;
      } else {
        BlockParses(|text| - |rest|, text, Some(INVOKE_END), done + [call], pieces[1..], ending, tail);
      }
    }
  }

  lemma PlainTreeParses(index: nat, text: string, t: Tree, thinking: bool)
    requires index <= |text| && text[index..] == SummaryText(t) && WellFormed(t, thinking) && t.block.None?
    ensures ParseSummary(index, text, t.reasoning) == Ok(Meaning(t))
  {
    hide ReadUntil, NoSpecialToken, EOS, CALLS;
    TokensDiffer();
    assert t.content + EOS == t.content + "" + EOS;
    PlainSummaryScans(index, text, t.content);
  }

  lemma BlockTreeParses(index: nat, text: string, t: Tree, thinking: bool)
    requires index <= |text| && text[index..] == SummaryText(t) && WellFormed(t, thinking) && t.block.Some?
    ensures ParseSummary(index, text, t.reasoning) == Ok(Meaning(t))
  {
    hide ReadUntil, NoSpecialToken, ParseCalls, OkPieces, BlockText, EOS, CALLS, CallsOf;
    var b := t.block.value;
    var tail := if b.eos then EOS else "";
    var rest := BlockText(b.pieces, b.ending, tail);
    ToolSummaryScans(index, text, t.content, rest);
    BlockParses(|text| - |rest|, text, None, [], b.pieces, b.ending, tail);
    assert [] + CallsOf(b.pieces) == CallsOf(b.pieces);
    EndScans(|text| - |tail|, text, tail);
  }

  lemma TreeSummaryParses(index: nat, text: string, t: Tree, thinking: bool)
    requires index <= |text| && text[index..] == SummaryText(t) && WellFormed(t, thinking)
    ensures ParseSummary(index, text, t.reasoning) == Ok(Meaning(t))
  {
    hide ParseSummary, SummaryText, WellFormed, Meaning;
    if t.block.None? { PlainTreeParses(index, text, t, thinking); } else { BlockTreeParses(index, text, t, thinking); }
  }

  lemma DerivableParses(t: Tree, thinking: bool)
    requires WellFormed(t, thinking)
    ensures ParseMessage(Unparse(t, thinking), thinking) == Ok(Meaning(t))
  {
    hide ReadUntil, ParseSummary, SummaryText, THINK_END, CALLS, Meaning;
    var text := Unparse(t, thinking);
    if thinking {
      ReasoningScans(text, t.reasoning, SummaryText(t));
      TreeSummaryParses(|text| - |SummaryText(t)|, text, t, thinking);
    } else {
      assert text[0..] == text;
      TreeSummaryParses(0, text, t, thinking);
    }
  }

  // ---- Accepted texts are derivable ----

  lemma ReadBack(index: nat, text: string, stops: seq<string>)
    requires index <= |text|
    ensures var r := ReadUntil(index, text, stops);
            && text[index..] == r.content + (OrEmpty(r.stop) + text[r.next..])
            && (forall s :: s in stops && s != "" ==> !Contains(r.content, s))
            && (r.stop.Some? ==> r.stop.value in stops) && (r.stop.None? ==> r.next == |text|)
  {
    hide ReadUntil, Contains;
    var r := ReadUntil(index, text, stops);
    ReadSpec(index, text, stops);
    assert r.content + OrEmpty(r.stop) + text[r.next..] == r.content + (OrEmpty(r.stop) + text[r.next..]);
    forall s | s in stops && s != "" ensures !Contains(r.content, s) {
      ReadFree(index, text, stops, s);
    }
  }

  lemma {:induction false} BodiesBack(index: nat, text: string, done: seq<Arg>, stop: Option<string>)
    returns (bodies: seq<string>, closed: bool)
    requires index <= |text| && ParseParams(index, text, done, stop).Ok? && DistinctKeys(done)
    requires stop == Some(PARAM) || stop == Some(INVOKE_END) || (stop.None? && index == |text|)
    ensures OkBodies(bodies) && stop == StopOf(bodies, closed)
    ensures var r := ParseParams(index, text, done, stop).value;
            && text[index..] == BodiesText(bodies, closed, text[r.index..])
            && r.args == done + ArgsOf(bodies) && DistinctKeys(r.args)
            && (!closed ==> r.index == |text|)
    decreases |text| - index
  {
    hide ReadUntil, MatchParam, INVOKE_END, PARAM, PARAM_END, Contains, ParseParam;
    TokensDiffer();
    if stop != Some(PARAM) {
      bodies, closed := [], stop.Some?;
      assert done + ArgsOf([]) == done && text[|text|..] == "";
    } else {
      var body := BodyBack(index, text, done);
      var step := ParseParam(index, text, done).value;
      var a := MatchParam(body).value;
      var more, c := BodiesBack(step.index, text, step.args, step.stop);
      bodies, closed := [body] + more, c;
      assert bodies[1..] == more && ArgsOf(bodies) == [a] + ArgsOf(more);
      assert done + ArgsOf(bodies) == done + [a] + ArgsOf(more);
      if step.stop.None? {
        assert more == [];
        assert done + [a] + ArgsOf(more) == done + [a];
      }
    }
  }

  lemma BodyBack(index: nat, text: string, done: seq<Arg>) returns (body: string)
    requires index <= |text| && ParseParam(index, text, done).Ok? && DistinctKeys(done)
    ensures OkBody(body)
    ensures var step := ParseParam(index, text, done).value;
            && text[index..] == body + (PARAM_END + (">\n" + (OrEmpty(step.stop) + text[step.index..])))
            && step.args == done + [MatchParam(body).value] && DistinctKeys(step.args)
            && (step.stop == Some(PARAM) || step.stop == Some(INVOKE_END) || (step.stop.None? && step.index == |text|))
  {
    hide ReadUntil, MatchParam, INVOKE_END, PARAM, PARAM_END, Contains;
    TokensDiffer();
    var r1 := ReadUntil(index, text, [PARAM_END]);
    ReadBack(index, text, [PARAM_END]);
    ReadBack(r1.next, text, [PARAM, INVOKE_END]);
    body := r1.content;
    assert |text[r1.next..]| == |text| - r1.next;
    NewKeyDistinct(done, MatchParam(body).value);
  }

  lemma NewKeyDistinct(done: seq<Arg>, a: Arg)
    requires DistinctKeys(done) && a.key !in Keys(done)
    ensures DistinctKeys(done + [a])
  {
    forall i | 0 <= i < |done| ensures done[i].key != a.key {
      assert done[i] in done && done[i].key in Keys(done);
    }
  }

  lemma PieceBack(index: nat, text: string, done: seq<ToolCall>) returns (p: Piece, closed: bool)
    requires index < |text| && ParseCall(index, text, done).Ok? && !ParseCall(index, text, done).value.1
    ensures OkPiece(p)
    ensures var r := ParseCall(index, text, done).value.0;
            && text[index..] == ">\n" + (INVOKE + PieceText(p, closed, text[r.index..]))
            && r.calls == done + [ToolCall(MatchName(p.head).value, ArgsOf(p.bodies))]
            && (!closed ==> r.index == |text|)
  {
    hide ReadUntil, MatchName, ParseParams, MatchParam, INVOKE, INVOKE_END, PARAM, CALLS_END, Contains;
    TokensDiffer();
    var r1 := ReadUntil(index, text, [INVOKE, CALLS_END]);
    ReadBack(index, text, [INVOKE, CALLS_END]);
    var r2 := ReadUntil(r1.next, text, [PARAM, INVOKE_END]);
    ReadBack(r1.next, text, [PARAM, INVOKE_END]);
    var bodies, c := BodiesBack(r2.next, text, [], r2.stop);
    p, closed := Piece(r2.content, bodies), c;
    assert [] + ArgsOf(bodies) == ArgsOf(bodies);
  }

  lemma EndBack(index: nat, text: string, done: seq<ToolCall>)
    requires index < |text| && ParseCall(index, text, done).Ok? && ParseCall(index, text, done).value.1
    ensures var r := ParseCall(index, text, done).value.0;
            text[index..] == ">\n" + (CALLS_END + text[r.index..]) && r.calls == done
  {
    hide ReadUntil, MatchName, ParseParams, INVOKE, INVOKE_END, PARAM, CALLS_END, Contains;
    ReadBack(index, text, [INVOKE, CALLS_END]);
  }

  lemma {:induction false} BlockBack(index: nat, text: string, stop: Option<string>, done: seq<ToolCall>)
    returns (pieces: seq<Piece>, ending: Ending)
    requires index <= |text| && ParseCalls(index, text, stop, done).Ok?
    ensures OkPieces(pieces) && (ending.CutInCall? ==> pieces != [])
    ensures var r := ParseCalls(index, text, stop, done).value;
            && text[index..] == BlockText(pieces, ending, text[r.index..])
            && r.calls == done + CallsOf(pieces)
            && (!ending.Closed? ==> r.index == |text|)
    decreases |text| - index
  {
    hide ParseCall, OkPiece, PieceText, INVOKE, CALLS_END;
    if index == |text| {
      pieces, ending := [], CutBetweenCalls;
      assert done + CallsOf([]) == done && text[|text|..] == "";
    } else {
      var (step, finished) := ParseCall(index, text, done).value;
      if finished {
        EndBack(index, text, done);
        pieces, ending := [], Closed;
        assert done + CallsOf([]) == done;
      } else {
        var p, closed := PieceBack(index, text, done);
        var more, e := BlockBack(step.index, text, step.stop, step.calls);
        pieces, ending := [p] + more, if closed then e else CutInCall;
        var call := CallsOf(pieces)[0];
        assert pieces[1..] == more && CallsOf(pieces) == [call] + CallsOf(more);
        assert done + CallsOf(pieces) == done + [call] + CallsOf(more);
        if !closed { assert text[|text|..] == ""; }
      }
    }
  }

  lemma SummaryBack(index: nat, text: string, reasoning: string, p: Parsed) returns (block: Option<Block>)
    requires index <= |text| && ParseSummary(index, text, reasoning) == Ok(p)
    ensures block.Some? ==>
              && OkPieces(block.value.pieces) && (block.value.ending.CutInCall? ==> block.value.pieces != [])
              && (block.value.eos ==> block.value.ending.Closed?)
    ensures var t := Tree(reasoning, p.content, block);
            Meaning(t) == p && text[index..] == SummaryText(t) && NoSpecialToken(p.content) && NoSpecialToken(reasoning)
  {
    hide ReadUntil, NoSpecialToken, ParseCalls, OkPieces, BlockText, EOS, CALLS, Contains;
    TokensDiffer();
    var r := ReadUntil(index, text, [EOS, CALLS]);
    ReadBack(index, text, [EOS, CALLS]);
    assert text[|text|..] == "";
    if r.stop == Some(CALLS) {
      var c := ParseCalls(r.next, text, None, []).value;
      var pieces, ending := BlockBack(r.next, text, None, []);
      var e := ReadUntil(c.index, text, [EOS]);
      ReadBack(c.index, text, [EOS]);
      assert text[c.index..] == OrEmpty(e.stop);
      assert [] + CallsOf(pieces) == CallsOf(pieces);
      block := Some(Block(pieces, ending, e.stop.Some?));
      assert e.stop.Some? ==> |text[c.index..]| > 0;
    } else {
      block := None;
      assert EOS + "" == EOS;
    }
  }

  lemma AcceptedDerives(text: string, thinking: bool, p: Parsed) returns (t: Tree)
    requires ParseMessage(text, thinking) == Ok(p)
    ensures WellFormed(t, thinking) && text == Unparse(t, thinking) && Meaning(t) == p
  {
    hide ReadUntil, ParseSummary, SummaryText, OkPieces, THINK_END, CALLS, Contains, NoSpecialToken, Meaning;
    assert text[0..] == text;
    if thinking {
      var r := ReadUntil(0, text, [THINK_END, CALLS]);
      ReadBack(0, text, [THINK_END, CALLS]);
      var block := SummaryBack(r.next, text, r.content, p);
      t := Tree(r.content, p.content, block);
    } else {
      var block := SummaryBack(0, text, "", p);
      t := Tree("", p.content, block);
    }
  }

  /** A text derives a message: it is written in the grammar and means that message. */
  ghost predicate Derives(text: string, thinking: bool, p: Parsed, t: Tree) {
    WellFormed(t, thinking) && text == Unparse(t, thinking) && Meaning(t) == p
  }

  /** The parser accepts exactly the texts of the grammar, and returns what they mean. */
  lemma AcceptedIff(text: string, thinking: bool, p: Parsed)
    ensures ParseMessage(text, thinking) == Ok(p) <==> exists t :: Derives(text, thinking, p, t)
  {
    hide ParseMessage, WellFormed, Unparse, Meaning;
    if ParseMessage(text, thinking) == Ok(p) {
      var t := AcceptedDerives(text, thinking, p);
      assert Derives(text, thinking, p, t);
    }
    if t :| Derives(text, thinking, p, t) {
      DerivableParses(t, thinking);
    }
  }
}
