/** Completions that end early: which of them the parser accepts without an end token, and what it then loses. */
module Dsv32CutTexts {
  import opened Wrappers
  import opened Text
  import opened Dsv32Encoder
  import opened Dsv32Parser
  import opened Dsv32RoundTrip
  import opened Dsv32Completion
  import opened Dsv32Grammar

  predicate EndsWith(s: string, t: string) {
    |t| <= |s| && s[|s| - |t|..] == t
  }

  // ---- Accepted without an end token ----

  lemma EndsWithSum(a: string, b: string, t: string)
    requires EndsWith(b, t)
    ensures EndsWith(a + b, t)
  {
    assert (a + b)[|a| + |b| - |t|..] == b[|b| - |t|..];
  }

  /** Something that an end token cannot end with: its last character, or the one before, is another. */
  predicate Foreign(s: string) {
    s != "" && (s[|s| - 1] != '>' || (|s| > 1 && s[|s| - 2] != '｜'))
  }

  lemma ForeignSum(a: string, b: string)
    requires Foreign(b)
    ensures Foreign(a + b)
  {
  }

  lemma EndedLast(s: string)
    requires EndsWith(s, EOS)
    ensures |s| > 1 && s[|s| - 1] == '>' && s[|s| - 2] == '｜'
  {
    var t := s[|s| - |EOS|..];
    assert t[|EOS| - 1] == s[|s| - 1] && t[|EOS| - 2] == s[|s| - 2];
  }

  lemma ForeignNotEnded(s: string)
    requires Foreign(s)
    ensures !EndsWith(s, EOS)
  {
    if EndsWith(s, EOS) { EndedLast(s); }
  }

  lemma ForeignTokens()
    ensures Foreign(CALLS) && Foreign(CALLS_END) && Foreign(INVOKE_END) && Foreign(">\n")
  {
  }

  lemma HeadIsForeign(head: string)
    requires OkHead(head)
    ensures Foreign(head)
  {
    hide MatchName, NameText, AllSpace, Foreign, Contains, PARAM, INVOKE_END;
    var name := MatchName(head).value;
    MatchNameIff(head, name);
    var space, blank :| AllSpace(space) && head == NameText(space, name, blank);
    NameIsForeign(space, name, blank);
  }

  lemma NameIsForeign(space: string, name: string, blank: bool)
    ensures Foreign(NameText(space, name, blank))
  {
    NameEnds(blank);
    hide NAME, NAME_TAIL, Blank, Foreign;
    var front, tail := space + (NAME + name), NAME_TAIL + Blank(blank);
    assert NameText(space, name, blank) == front + tail;
    ForeignSum(front, tail);
  }

  lemma NameEnds(blank: bool)
    ensures Foreign(NAME_TAIL + Blank(blank))
  {
  }

  lemma {:induction false} BodiesForeign(bodies: seq<string>, closed: bool, tail: string)
    requires tail == "" || Foreign(tail)
    ensures var s := OrEmpty(StopOf(bodies, closed)) + BodiesText(bodies, closed, tail);
            Foreign(s) || (s == "" && bodies == [] && !closed)
    decreases |bodies|
  {
    hide Foreign, INVOKE_END, PARAM, PARAM_END;
    ForeignTokens();
    if bodies == [] {
      if closed {
        if tail == "" { assert INVOKE_END + tail == INVOKE_END; } else { ForeignSum(INVOKE_END, tail); }
      }
    } else {
      var rest := OrEmpty(StopOf(bodies[1..], closed)) + BodiesText(bodies[1..], closed, tail);
      BodiesForeign(bodies[1..], closed, tail);
      if rest == "" { assert ">\n" + rest == ">\n"; } else { ForeignSum(">\n", rest); }
      var front := PARAM + (bodies[0] + PARAM_END);
      ForeignSum(front, ">\n" + rest);
      assert front + (">\n" + rest) == PARAM + (bodies[0] + (PARAM_END + (">\n" + rest)));
    }
  }

  lemma {:induction false} BlockForeign(pieces: seq<Piece>, ending: Ending)
    requires OkPieces(pieces)
    ensures BlockText(pieces, ending, "") == "" || Foreign(BlockText(pieces, ending, ""))
    decreases |pieces|
  {
    hide Foreign, INVOKE, CALLS_END, OkHead, BodiesText, StopOf;
    ForeignTokens();
    if pieces == [] {
      ForeignSum(">\n", CALLS_END);
      assert CALLS_END + "" == CALLS_END;
    } else {
      var rest := BlockText(pieces[1..], ending, "");
      var closed := !(ending.CutInCall? && |pieces| == 1);
      BlockForeign(pieces[1..], ending);
      var p := pieces[0];
      var after := OrEmpty(StopOf(p.bodies, closed)) + BodiesText(p.bodies, closed, rest);
      BodiesForeign(p.bodies, closed, rest);
      HeadIsForeign(p.head);
      if after == "" { assert p.head + after == p.head; } else { ForeignSum(p.head, after); }
      ForeignSum(">\n" + INVOKE, PieceText(p, closed, rest));
      assert ">\n" + INVOKE + PieceText(p, closed, rest) == ">\n" + (INVOKE + PieceText(p, closed, rest));
    }
  }

  /** A text of the grammar ends with the end token exactly when its tree says so. */
  lemma EndedIff(t: Tree, thinking: bool)
    requires WellFormed(t, thinking)
    ensures EndsWith(Unparse(t, thinking), EOS) <==> t.block.None? || t.block.value.eos
  {
    hide EOS, CALLS, THINK_END, BlockText, EndsWith, Foreign;
    SummaryEndedIff(t, thinking);
    var s := SummaryText(t);
    if thinking {
      assert t.reasoning + THINK_END + s == t.reasoning + (THINK_END + s);
      if EndsWith(s, EOS) { EndsWithSum(t.reasoning + THINK_END, s, EOS); }
      if Foreign(s) {
        ForeignSum(t.reasoning + THINK_END, s);
        ForeignNotEnded(t.reasoning + THINK_END + s);
      }
    }
  }

  lemma SummaryEndedIff(t: Tree, thinking: bool)
    requires WellFormed(t, thinking)
    ensures if t.block.None? || t.block.value.eos then EndsWith(SummaryText(t), EOS)
            else Foreign(SummaryText(t)) && !EndsWith(SummaryText(t), EOS)
  {
    hide EOS, CALLS, BlockText, EndsWith, Foreign, OkPieces, NoSpecialToken;
    ForeignTokens();
    if t.block.None? {
      Itself(EOS);
      EndsWithSum(t.content, EOS, EOS);
    } else {
      var b := t.block.value;
      if b.eos {
        var rest := BlockText(b.pieces, b.ending, EOS);
        BlockEnds(b.pieces, b.ending, EOS);
        EndsWithSum(CALLS, rest, EOS);
        EndsWithSum(t.content, CALLS + rest, EOS);
      } else {
        var rest := BlockText(b.pieces, b.ending, "");
        BlockForeign(b.pieces, b.ending);
        if rest == "" { assert CALLS + rest == CALLS; } else { ForeignSum(CALLS, rest); }
        ForeignSum(t.content, CALLS + rest);
        ForeignNotEnded(SummaryText(t));
      }
    }
  }

  lemma Itself(t: string)
    ensures EndsWith(t, t)
  {
  }

  lemma BlockEnds(pieces: seq<Piece>, ending: Ending, tail: string)
    requires OkPieces(pieces) && ending.Closed?
    ensures EndsWith(BlockText(pieces, ending, tail), tail)
  {
    hide BlockText, OkPieces;
    var text := BlockText(pieces, ending, tail);
    assert text[0..] == text;
    BlockParses(0, text, None, [], pieces, ending, tail);
  }

  /** An accepted text lacks the end token exactly when it is written with a tool block and without that token: closed,
      or cut after the opening token, after a whole call, after a name, or after a parameter. */
  lemma UnendedAcceptedIff(text: string, thinking: bool, p: Parsed)
    ensures ParseMessage(text, thinking) == Ok(p) && !EndsWith(text, EOS) <==>
            exists t :: Derives(text, thinking, p, t) && t.block.Some? && !t.block.value.eos
  {
    hide ParseMessage, EndsWith, EOS, Unparse, WellFormed;
    AcceptedIff(text, thinking, p);
    if t :| Derives(text, thinking, p, t) {
      EndedIff(t, thinking);
    }
    forall t | Derives(text, thinking, p, t)
      ensures EndsWith(text, EOS) <==> t.block.None? || t.block.value.eos
    {
      EndedIff(t, thinking);
    }
  }

  // ---- Printed turns, cut ----

  function PrintedBodies(args: seq<Arg>): (r: seq<string>)
    ensures |r| == |args| && forall i :: 0 <= i < |args| ==> r[i] == ArgBody(args[i])
  {
    seq(|args|, i requires 0 <= i < |args| => ArgBody(args[i]))
  }

  /** A printed call, as a piece of the grammar. */
  function Printed(c: ToolCall): Piece {
    Piece(KEY + c.name + NAME_TAIL + Blank(c.args == []), PrintedBodies(c.args))
  }

  function PrintedAll(calls: seq<ToolCall>): (r: seq<Piece>)
    ensures |r| == |calls|
  {
    seq(|calls|, i requires 0 <= i < |calls| => Printed(calls[i]))
  }

  lemma PrintedHead(name: string, blank: bool)
    requires !Contains(name, PARAM) && !Contains(name, INVOKE_END)
    ensures var head := KEY + name + NAME_TAIL + Blank(blank); OkHead(head) && MatchName(head) == Some(name)
  {
    hide MatchName, KEY, NAME_TAIL, Blank, PARAM, INVOKE_END, Contains, FreeOf;
    var head := KEY + name + NAME_TAIL + Blank(blank);
    MatchNameRendered(name, blank);
    BlankIs(blank);
    NameFree(name, Blank(blank), PARAM, "<");
    NameFree(name, Blank(blank), INVOKE_END, "<");
    FreeNotContained(head, PARAM, "<");
    FreeNotContained(head, INVOKE_END, "<");
  }

  lemma BlankIs(blank: bool)
    ensures Blank(blank) == if blank then "\n" else ""
  {
  }

  lemma FreeNotContained(content: string, s: string, follow: string)
    requires FreeOf(content, s, follow) && (s == PARAM || s == INVOKE_END || s == PARAM_END)
    ensures !Contains(content, s)
  {
    TokensDiffer();
    hide PARAM, INVOKE_END, PARAM_END;
    if Contains(content, s) { ContainedNotFree(content, s, follow); }
  }

  lemma PrintedBody(a: Arg)
    requires CleanArg(a)
    ensures OkBody(ArgBody(a)) && MatchParam(ArgBody(a)) == Some(a)
  {
    hide MatchParam, ArgBody, Contains, FreeOf, PARAM_END;
    assert ArgBody(a) + Blank(false) == ArgBody(a);
    MatchParamRendered(a, false);
    ArgBodyFree(a, "/");
    FreeNotContained(ArgBody(a), PARAM_END, "/");
  }

  lemma PrintedOk(c: ToolCall)
    requires CleanCall(c)
    ensures OkPiece(Printed(c))
    ensures ToolCall(MatchName(Printed(c).head).value, ArgsOf(Printed(c).bodies)) == c
  {
    hide MatchName, MatchParam, ArgBody, Contains, OkHead, OkBody, CleanArg, KEY, NAME_TAIL, Blank;
    PrintedHead(c.name, c.args == []);
    var p := Printed(c);
    forall i | 0 <= i < |c.args| ensures OkBody(p.bodies[i]) && MatchParam(p.bodies[i]) == Some(c.args[i]) {
      assert c.args[i] in c.args;
      PrintedBody(c.args[i]);
    }
    BodiesMatch(p.bodies);
    assert ArgsOf(p.bodies) == c.args;
    HeadMatches(p.head);
  }

  lemma BodiesMatch(bodies: seq<string>)
    requires OkBodies(bodies)
    ensures forall i :: 0 <= i < |bodies| ==> MatchParam(bodies[i]) == Some(ArgsOf(bodies)[i])
  {
    hide MatchParam;
  }

  lemma PrintedAllOk(calls: seq<ToolCall>)
    requires forall c :: c in calls ==> CleanCall(c)
    ensures OkPieces(PrintedAll(calls)) && CallsOf(PrintedAll(calls)) == calls
  {
    hide Printed, OkPiece, CleanCall, MatchName, ArgsOf;
    forall i | 0 <= i < |calls|
      ensures OkPiece(PrintedAll(calls)[i])
    {
      assert calls[i] in calls;
      PrintedOk(calls[i]);
    }
    forall i | 0 <= i < |calls| ensures CallsOf(PrintedAll(calls))[i] == calls[i] {
      assert calls[i] in calls;
      PrintedOk(calls[i]);
    }
    assert CallsOf(PrintedAll(calls)) == calls;
  }

  lemma {:induction false} PrintedArgs(args: seq<Arg>, tail: string)
    requires args != []
    ensures BodiesText(PrintedBodies(args), true, tail) == ArgsText(args, tail)
  {
    hide PARAM, INVOKE_END, PARAM_END, ArgBody;
    var bodies, rest := PrintedBodies(args), args[1..];
    assert bodies[1..] == PrintedBodies(rest);
    if |args| > 1 { PrintedArgs(rest, tail); }
    var more := OrEmpty(StopOf(bodies[1..], true)) + BodiesText(bodies[1..], true, tail);
    assert ArgBody(args[0]) + (PARAM_END + (">\n" + more)) == ArgBody(args[0]) + PARAM_END + (">\n" + more);
  }

  lemma PrintedCallText(c: ToolCall, tail: string)
    ensures PieceText(Printed(c), true, tail) == CallText(c, tail)
  {
    hide PARAM, INVOKE_END, KEY, NAME_TAIL, ArgBody, ArgsText;
    var head := KEY + c.name + NAME_TAIL;
    if c.args == [] {
      assert Printed(c).bodies == [];
      assert head + "\n" + (INVOKE_END + tail) == head + ("\n" + (INVOKE_END + tail));
    } else {
      PrintedArgs(c.args, tail);
      var bodies := Printed(c).bodies;
      assert Printed(c).head == head;
      assert PieceText(Printed(c), true, tail) == head + (PARAM + BodiesText(bodies, true, tail));
    }
  }

  lemma {:induction false} PrintedBlock(calls: seq<ToolCall>, tail: string)
    ensures BlockText(PrintedAll(calls), Closed, tail) == CallsText(calls, tail)
  {
    hide PieceText, CallText, Printed, INVOKE, CALLS_END;
    if calls != [] {
      PrintedBlock(calls[1..], tail);
      assert PrintedAll(calls)[1..] == PrintedAll(calls[1..]);
      PrintedCallText(calls[0], CallsText(calls[1..], tail));
    }
  }

  /** The printed turn as a tree: the grammar describes the printer too. */
  lemma PrintedTurn(p: Parsed, thinking: bool)
    requires p.calls != []
    ensures var t := Tree(p.reasoning, p.content, Some(Block(PrintedAll(p.calls), Closed, true)));
            Turn(p, thinking, EOS) == Unparse(t, thinking)
  {
    hide CALLS, EOS, THINK_END, BlockText, CallsText, PrintedAll, ToolBlock;
    CallsBlock(p.calls, EOS);
    PrintedBlock(p.calls, EOS);
    Regroup(p.reasoning, THINK_END, p.content, ToolBlock(p.calls), EOS);
  }

  lemma Regroup(a: string, b: string, c: string, d: string, e: string)
    ensures a + b + c + d + e == a + (b + (c + (d + e))) && "" + c + d + e == c + (d + e)
  {
  }

  /** A printed turn, cut after its first k calls. */
  function CutTurn(p: Parsed, thinking: bool, k: nat): string
    requires k <= |p.calls|
  {
    Unparse(Tree(p.reasoning, p.content, Some(Block(PrintedAll(p.calls[..k]), CutBetweenCalls, false))), thinking)
  }

  lemma {:induction false} CutBlockIsPrefix(calls: seq<ToolCall>, k: nat, tail: string)
    requires k <= |calls|
    ensures BlockText(PrintedAll(calls[..k]), CutBetweenCalls, "") <= BlockText(PrintedAll(calls), Closed, tail)
    decreases k
  {
    hide Printed, INVOKE, CALLS_END;
    if k > 0 {
      var cut, all := PrintedAll(calls[..k]), PrintedAll(calls);
      CutBlockIsPrefix(calls[1..], k - 1, tail);
      assert cut[1..] == PrintedAll(calls[1..][..k - 1]) && all[1..] == PrintedAll(calls[1..]) && cut[0] == all[0];
      PieceGrows(all[0], BlockText(cut[1..], CutBetweenCalls, ""), BlockText(all[1..], Closed, tail));
    }
  }

  lemma PieceGrows(p: Piece, a: string, b: string)
    requires a <= b
    ensures PieceText(p, true, a) <= PieceText(p, true, b)
  {
    hide PARAM, INVOKE_END, PARAM_END;
    BodiesGrow(p.bodies, a, b);
  }

  lemma {:induction false} BodiesGrow(bodies: seq<string>, a: string, b: string)
    requires a <= b
    ensures BodiesText(bodies, true, a) <= BodiesText(bodies, true, b)
  {
    hide PARAM, INVOKE_END, PARAM_END;
    if bodies != [] { BodiesGrow(bodies[1..], a, b); }
  }

  /** Every clean turn with tool calls has, for each k, a beginning that the parser accepts as the same turn with only
      its first k calls: the others are lost without an error. */
  lemma CutLosesCalls(p: Parsed, thinking: bool, k: nat)
    requires Clean(p) && (thinking || p.reasoning == "") && k <= |p.calls| && p.calls != []
    ensures CutTurn(p, thinking, k) <= Turn(p, thinking, EOS)
    ensures ParseMessage(CutTurn(p, thinking, k), thinking) == Ok(Parsed(p.content, p.reasoning, p.calls[..k]))
  {
    hide CALLS, EOS, THINK_END, BlockText, PrintedAll, ParseMessage, NoSpecialToken, CleanCall, OkPiece, Turn;
    var t := Tree(p.reasoning, p.content, Some(Block(PrintedAll(p.calls[..k]), CutBetweenCalls, false)));
    assert forall c :: c in p.calls[..k] ==> c in p.calls;
    PrintedAllOk(p.calls[..k]);
    DerivableParses(t, thinking);
    PrintedTurn(p, thinking);
    CutBlockIsPrefix(p.calls, k, EOS);
  }

  /** The smallest such text: a tool block opened and nothing more. */
  lemma OpenedBlockAccepted(content: string)
    requires NoSpecialToken(content)
    ensures ParseMessage(content + CALLS, false) == Ok(Parsed(content, "", []))
  {
    hide CALLS, ParseMessage, Contains;
    var t := Tree("", content, Some(Block([], CutBetweenCalls, false)));
    NothingSpecial();
    assert OkPieces([]) && CallsOf([]) == [];
    DerivableParses(t, false);
    assert content + (CALLS + "") == content + CALLS;
  }

  lemma NothingSpecial()
    ensures NoSpecialToken("")
  {
    TokensDiffer();
  }
}
