/** Printing an assistant turn and scanning it back. */
module Dsv32RoundTrip {
  import opened Wrappers
  import opened Text
  import opened Dsv32Encoder
  import opened Dsv32Parser

  // ---- Which messages survive ----

  predicate CleanArg(a: Arg) {
    && !Contains(a.key, PARAM_END) && !Contains(a.value, PARAM_END)
    && !Contains(a.key, IS_TRUE) && !Contains(a.key, IS_FALSE)
  }

  ghost predicate DistinctKeys(args: seq<Arg>) {
    forall i, j :: 0 <= i < j < |args| ==> args[i].key != args[j].key
  }

  ghost predicate CleanArgs(args: seq<Arg>) {
    DistinctKeys(args) && forall a :: a in args ==> CleanArg(a)
  }

  ghost predicate CleanCall(c: ToolCall) {
    !Contains(c.name, PARAM) && !Contains(c.name, INVOKE_END) && CleanArgs(c.args)
  }

  ghost predicate Clean(p: Parsed) {
    NoSpecialToken(p.content) && NoSpecialToken(p.reasoning) && forall c :: c in p.calls ==> CleanCall(c)
  }

  // ---- The stop tokens ----

  /** `s` starts with `c` and holds no other `c`. */
  ghost predicate HeadOnly(s: string, c: char) {
    s != "" && s[0] == c && forall k :: 0 < k < |s| ==> s[k] != c
  }

  lemma AngleTokens()
    ensures HeadOnly(INVOKE, '<') && HeadOnly(INVOKE_END, '<') && HeadOnly(PARAM, '<')
    ensures HeadOnly(CALLS_END, '<') && HeadOnly(EOS, '<') && HeadOnly(THINK_END, '<')
  {
  }

  lemma SlashToken()
    ensures HeadOnly(PARAM_END, '/')
    ensures forall k :: 0 <= k < |PARAM_END| ==> PARAM_END[k] !in "\"<>"
  {
  }

  lemma TokensDiffer()
    ensures EOS != CALLS && PARAM != INVOKE_END && INVOKE != CALLS_END
    ensures PARAM != "" && PARAM_END != "" && INVOKE_END != "" && CALLS != "" && EOS != "" && THINK_END != ""
    ensures EOS[0] != CALLS[0] && THINK_END[0] != CALLS[0]
  {
  }

  /** The start of a tool block overlaps neither itself nor an end token. */
  lemma CallsCannotStraddle(follow: string)
    requires CALLS <= follow || EOS <= follow || THINK_END <= follow
    ensures NoStraddle(CALLS, follow)
  {
    CallsLetters(follow);
    hide CALLS, EOS, THINK_END;
    forall k | 0 < k < |CALLS| ensures !(CALLS[k..] <= follow) {
      assert forall j :: 0 <= j < |CALLS| - k ==> CALLS[k..][j] == CALLS[k + j];
    }
  }

  /** Two line feeds and then the only `<` of the token. */
  lemma CallsLetters(follow: string)
    requires CALLS <= follow || EOS <= follow || THINK_END <= follow
    ensures |CALLS| > 4 && CALLS[1] == '\n' && CALLS[2] == '<' && CALLS[4] == 'D'
    ensures forall k :: 2 < k < |CALLS| ==> CALLS[k] != '<' && CALLS[k] != '\n'
    ensures |follow| > 2
    ensures follow[0] == '\n' ==> follow[1] == '\n'
    ensures follow[0] == '\n' || (follow[0] == '<' && follow[2] != 'D')
  {
  }

  lemma DsmlInside()
    ensures Contains(CALLS, DSML)
  {
    assert CALLS[3..9] == DSML;
    ContainsAt(CALLS, DSML, 3);
  }

  /** Text without special tokens is free of the stop tokens of the message scanner. */
  lemma CleanTextFree(content: string, follow: string)
    requires NoSpecialToken(content)
    requires CALLS <= follow || EOS <= follow || THINK_END <= follow
    ensures FreeOf(content, CALLS, follow)
    ensures !(CALLS <= follow) ==> FreeOf(content, EOS, follow) && FreeOf(content, THINK_END, follow)
    ensures CALLS <= follow ==> FreeOf(content, EOS, follow)
  {
    CallsCannotStraddle(follow);
    DsmlInside();
    if Contains(content, CALLS) {
      var i := Find(content, CALLS, 0).value;
      assert content == content[..i] + CALLS + content[i + |CALLS|..];
      ContainsMono(content[..i], CALLS, content[i + |CALLS|..], DSML);
    }
    FreeOfIntro(content, CALLS, follow);
    AngleTokens();
    if CALLS <= follow {
      EndBeforeCalls(follow);
    } else {
      NoStraddleByHead(EOS, follow, '<');
      NoStraddleByHead(THINK_END, follow, '<');
      FreeOfIntro(content, THINK_END, follow);
    }
    FreeOfIntro(content, EOS, follow);
  }

  lemma EndBeforeCalls(follow: string)
    requires CALLS <= follow
    ensures NoStraddle(EOS, follow)
  {
    assert forall k :: 0 < k < |EOS| ==> EOS[k] != '\n';
    NoStraddleByHead(EOS, follow, '\n');
  }

  // ---- One scanning step ----

  lemma NothingEarlier(index: nat, text: string, content: string, follow: string, s: string, i: nat)
    requires index <= |text| && text[index..] == content + follow
    requires FreeOf(content, s, follow) && index <= i < index + |content|
    ensures !OccursAt(text, s, i)
  {
    assert !OccursAt(content + follow, s, i - index);
    var u := text[index..];
    assert forall k :: 0 <= k < |u| ==> u[k] == text[index + k];
    if i + |s| <= |text| { assert text[i..i + |s|] == u[i - index..i - index + |s|]; }
  }

  lemma ReadStep(index: nat, text: string, stops: seq<string>, content: string, stop: string, rest: string)
    requires index <= |text| && text[index..] == content + stop + rest
    requires stop in stops && stop != ""
    requires forall s :: s in stops ==> s != "" && FreeOf(content, s, stop + rest)
    requires forall s :: s in stops && s != stop ==> !(s <= stop + rest)
    ensures ReadUntil(index, text, stops) == Read(index + |content| + |stop|, content, Some(stop))
    ensures text[index + |content| + |stop|..] == rest
  {
    var p := index + |content|;
    assert text[index..] == content + (stop + rest);
    forall s, i: nat | s in stops && index <= i < p ensures !OccursAt(text, s, i) {
      NothingEarlier(index, text, content, stop + rest, s, i);
    }
    assert text[p..] == stop + rest && text[p..p + |stop|] == stop;
    assert OccursAt(text, stop, p);
    var (pos, found) := Nearest(text, index, stops);
    assert pos == p && found.Some?;
    assert text[p..p + |found.value|] == (stop + rest)[..|found.value|];
    assert text[index..p] == content;
    assert text[p + |stop|..] == rest;
  }

  lemma Differ(s: string, stop: string, rest: string, k: nat)
    requires k < |s| && k < |stop| && s[k] != stop[k]
    ensures !(s <= stop + rest)
  {
    assert (stop + rest)[k] == stop[k];
  }

  // ---- The regular expressions on rendered text ----

  function ArgBody(a: Arg): string {
    KEY + a.key + (if a.isString then IS_TRUE else IS_FALSE) + a.value + VALUE_TAIL
  }

  lemma MarkersNoStraddle(b: bool, c: bool, rest: string)
    ensures NoStraddle(if b then IS_TRUE else IS_FALSE, (if c then IS_TRUE else IS_FALSE) + rest)
  {
    var s, t := if b then IS_TRUE else IS_FALSE, if c then IS_TRUE else IS_FALSE;
    forall k | 0 < k < |s| ensures !(s[k..] <= t + rest) {
      assert s[k..][0] == s[k] && (t + rest)[0] == t[0] && (t + rest)[1] == t[1];
      if k + 1 < |s| { assert s[k..][1] == s[k + 1]; }
    }
  }

  lemma MarkersDiffer(rest: string)
    ensures !(IS_TRUE <= IS_FALSE + rest) && !(IS_FALSE <= IS_TRUE + rest) && |VALUE_TAIL| == 1 && VALUE_TAIL[0] == '<'
  {
    assert (IS_FALSE + rest)[10] == 'f' && IS_TRUE[10] == 't';
    assert (IS_TRUE + rest)[10] == 't' && IS_FALSE[10] == 'f';
  }

  /** The pattern lets a line feed follow. */
  function Blank(blank: bool): string {
    if blank then "\n" else ""
  }

  /** Where the pieces of a parameter body lie. */
  lemma BodyLayout(a: Arg, blank: bool)
    ensures var s, marker, k := ArgBody(a) + Blank(blank), if a.isString then IS_TRUE else IS_FALSE, |KEY| + |a.key|;
            && KEY <= s && s[|KEY|..] == a.key + (marker + (a.value + (VALUE_TAIL + Blank(blank)))) && s[|KEY|..k] == a.key
            && s[k..] == marker + (a.value + (VALUE_TAIL + Blank(blank))) && s[k..k + |marker|] == marker
            && s[k + |marker|..k + |marker| + |a.value|] == a.value
            && s[k + |marker| + |a.value|..] == VALUE_TAIL + Blank(blank)
            && |s| == k + |marker| + |a.value| + |VALUE_TAIL| + |Blank(blank)|
  {
    hide KEY, IS_TRUE, IS_FALSE, VALUE_TAIL, Blank;
    var s, marker := ArgBody(a) + Blank(blank), if a.isString then IS_TRUE else IS_FALSE;
    var tail := VALUE_TAIL + Blank(blank);
    assert s == KEY + (a.key + (marker + (a.value + tail)));
    assert s == KEY + a.key + (marker + (a.value + tail));
    assert s == KEY + a.key + marker + (a.value + tail);
  }

  /** No marker begins inside a clean key. */
  lemma NoMarkerInKey(a: Arg, blank: bool, i: nat, b: bool)
    requires !Contains(a.key, IS_TRUE) && !Contains(a.key, IS_FALSE) && |KEY| <= i < |KEY| + |a.key|
    ensures !MarkerAt(ArgBody(a) + Blank(blank), i, b)
  {
    hide KEY, IS_TRUE, IS_FALSE, VALUE_TAIL, ArgBody, LazyUpTo, Blank;
    BodyLayout(a, blank);
    var m, marker := if b then IS_TRUE else IS_FALSE, if a.isString then IS_TRUE else IS_FALSE;
    var rest := a.value + (VALUE_TAIL + Blank(blank));
    MarkersNoStraddle(b, a.isString, rest);
    FreeOfIntro(a.key, m, marker + rest);
    NothingEarlier(|KEY|, ArgBody(a) + Blank(blank), a.key, marker + rest, m, i);
  }

  lemma TailOfBody(a: Arg, blank: bool)
    ensures var s, v := ArgBody(a) + Blank(blank), |KEY| + |a.key| + |if a.isString then IS_TRUE else IS_FALSE|;
            v <= |s| && LazyUpTo(s, VALUE_TAIL, v) == Some(v + |a.value|)
  {
    hide KEY, IS_TRUE, IS_FALSE, VALUE_TAIL, ArgBody, LazyUpTo;
    BodyLayout(a, blank);
    MarkersDiffer("");
    var s := ArgBody(a) + Blank(blank);
    var end := |s| - 1 - |Blank(blank)|;
    LastTail(s, end, Blank(blank));
    OnlyLastTail(s, end);
  }

  lemma LastTail(s: string, end: nat, blank: string)
    requires end < |s| && s[end..] == VALUE_TAIL + blank && (blank == "" || blank == "\n")
    ensures s[end] == '<' && s[end + 1..] == blank && TailAt(s, VALUE_TAIL, end)
  {
    MarkersDiffer("");
    hide VALUE_TAIL;
    assert s[end] == s[end..][0] && s[end..end + 1] == s[end..][..1] && s[end + 1..] == s[end..][1..];
  }

  lemma OwnMarker(a: Arg, blank: bool)
    ensures MarkerAt(ArgBody(a) + Blank(blank), |KEY| + |a.key|, a.isString)
  {
    hide KEY, IS_TRUE, IS_FALSE, VALUE_TAIL, ArgBody, LazyUpTo, Blank;
    BodyLayout(a, blank);
    TailOfBody(a, blank);
  }

  lemma NotAtPrefix(s: string, t: string, k: nat)
    requires k <= |s| && !(t <= s[k..])
    ensures !OccursAt(s, t, k)
  {
    if k + |t| <= |s| { assert s[k..k + |t|] == s[k..][..|t|]; }
  }

  lemma MarkerOfBody(a: Arg, blank: bool)
    ensures var s, k := ArgBody(a) + Blank(blank), |KEY| + |a.key|;
            MarkerAt(s, k, a.isString) && !MarkerAt(s, k, !a.isString)
  {
    hide KEY, IS_TRUE, IS_FALSE, VALUE_TAIL, ArgBody, LazyUpTo, OccursAt, Blank;
    OwnMarker(a, blank);
    BodyLayout(a, blank);
    MarkersDiffer(a.value + (VALUE_TAIL + Blank(blank)));
    NotAtPrefix(ArgBody(a) + Blank(blank), if a.isString then IS_FALSE else IS_TRUE, |KEY| + |a.key|);
  }

  /** A parameter body is read back whatever its value contains, when no marker occurs in its key. */
  lemma MatchParamRendered(a: Arg, blank: bool)
    requires !Contains(a.key, IS_TRUE) && !Contains(a.key, IS_FALSE)
    ensures MatchParam(ArgBody(a) + Blank(blank)) == Some(a)
  {
    hide KEY, IS_TRUE, IS_FALSE, VALUE_TAIL, ArgBody, LazyUpTo, MarkerAt, FirstMarker, Blank, Contains;
    BodyLayout(a, blank);
    TailOfBody(a, blank);
    MarkerOfBody(a, blank);
    var s, k := ArgBody(a) + Blank(blank), |KEY| + |a.key|;
    forall b, i: nat | |KEY| <= i < k ensures !MarkerAt(s, i, b) {
      NoMarkerInKey(a, blank, i, b);
    }
    assert FirstMarker(s, |KEY|) == Some(k);
  }

  /** With at most a line feed after it, `tail$` matches only at the last `<`. */
  lemma OnlyLastTail(s: string, end: nat)
    requires end + 1 <= |s| && s[end] == '<' && (s[end + 1..] == "" || s[end + 1..] == "\n")
    ensures forall i: nat :: i < end ==> !TailAt(s, VALUE_TAIL, i)
  {
    forall i: nat | i < end ensures !TailAt(s, VALUE_TAIL, i) {
      assert s[i + 1..][end - i - 1] == '<';
      if |s| == end + 2 { assert |s[i + 1..]| >= 2; }
    }
  }

  /** A rendered tool name is read back whatever it contains; a blank line may follow, as for a call without
      parameters. */
  lemma MatchNameRendered(name: string, blank: bool)
    ensures MatchName(KEY + name + NAME_TAIL + if blank then "\n" else "") == Some(name)
  {
    var more := if blank then "\n" else "";
    var s := KEY + name + NAME_TAIL + more;
    var t := NAME + name + NAME_TAIL + more;
    assert s == [' '] + t;
    assert s[1..] == t && IsSpace(s[0]) && !IsSpace(t[0]);
    assert SkipSpace(t) == t && SkipSpace(s) == t;
    var at := |NAME| + |name|;
    assert t[at..at + 3] == NAME_TAIL && t[at + 3..] == more;
    assert TailAt(t, NAME_TAIL, at);
    assert t[at + 1] == NAME_TAIL[1] && t[at + 2] == NAME_TAIL[2];
    forall i: nat | |NAME| <= i < at ensures !TailAt(t, NAME_TAIL, i) {
      if i + 4 <= |t| {
        assert |t[i + 3..]| >= at - i;
        if i + 4 == |t| { assert t[i..i + 3][1] == t[i + 1] && t[i..i + 3][2] == t[i + 2]; }
      }
    }
    assert t[|NAME|..at] == name;
  }

  // ---- Rendered text, nested to the right as the scanner meets it ----

  /** Everything after the first parameter token, up to and including `tail` after the closing invoke token. */
  function ArgsText(args: seq<Arg>, tail: string): string
    requires args != []
  {
    ArgBody(args[0]) + PARAM_END + (">\n" + (if |args| == 1 then INVOKE_END + tail else PARAM + ArgsText(args[1..], tail)))
  }

  /** Everything after the opening invoke token of a call. */
  function CallText(c: ToolCall, tail: string): string {
    KEY + c.name + NAME_TAIL + if c.args == [] then "\n" + (INVOKE_END + tail) else PARAM + ArgsText(c.args, tail)
  }

  /** Everything after a tool call, or after the token that opens the block. */
  function CallsText(calls: seq<ToolCall>, tail: string): string {
    if calls == [] then ">\n" + (CALLS_END + tail)
    else ">\n" + (INVOKE + CallText(calls[0], CallsText(calls[1..], tail)))
  }

  lemma ArgRenderedAs(a: Arg)
    ensures RenderArg(a) == PARAM + ArgBody(a) + PARAM_END + ">"
  {
    hide PARAM, PARAM_END;
    assert "\" string=\"" + TrueFalse(a.isString) + "\">" == if a.isString then IS_TRUE else IS_FALSE;
  }

  lemma {:induction false} ArgsRenderedAs(args: seq<Arg>, tail: string)
    requires args != []
    ensures JoinLines(RenderArgs(args)) + "\n" + (INVOKE_END + tail) == PARAM + ArgsText(args, tail)
  {
    hide PARAM, PARAM_END, INVOKE_END, RenderArg, ArgBody;
    var parts := RenderArgs(args);
    var body, rest := ArgBody(args[0]), INVOKE_END + tail;
    ArgRenderedAs(args[0]);
    if |args| > 1 {
      assert parts[1..] == RenderArgs(args[1..]);
      ArgsRenderedAs(args[1..], tail);
      rest := PARAM + ArgsText(args[1..], tail);
      assert JoinLines(parts) + "\n" + (INVOKE_END + tail) == parts[0] + "\n" + rest;
    }
    assert PARAM + body + PARAM_END + ">" + "\n" + rest == PARAM + (body + PARAM_END + (">\n" + rest));
  }

  lemma CallRenderedAs(c: ToolCall, tail: string)
    ensures RenderCall(c) + tail == INVOKE + CallText(c, ">" + tail)
  {
    NameQuote();
    hide INVOKE, INVOKE_END, PARAM, KEY, NAME_TAIL, ArgsText, RenderArgs, JoinLines;
    var joined := JoinLines(RenderArgs(c.args));
    assert RenderCall(c) == INVOKE + KEY + c.name + NAME_TAIL + joined + "\n" + INVOKE_END + ">";
    assert RenderCall(c) + tail == INVOKE + (KEY + c.name + NAME_TAIL + (joined + "\n" + (INVOKE_END + (">" + tail))));
    if c.args != [] {
      ArgsRenderedAs(c.args, ">" + tail);
    } else {
      NothingJoined();
      assert "" + "\n" + (INVOKE_END + (">" + tail)) == "\n" + (INVOKE_END + (">" + tail));
    }
  }

  lemma NothingJoined()
    ensures JoinLines(RenderArgs([])) == ""
  {
  }

  lemma NameQuote()
    ensures forall p, name: string, rest: string ::
              p + " name=\"" + name + "\">\n" + rest == p + KEY + name + NAME_TAIL + rest
  {
  }

  lemma {:induction false} CallsRenderedAs(calls: seq<ToolCall>, tail: string)
    requires calls != []
    ensures ">\n" + JoinLines(RenderCalls(calls)) + "\n" + (CALLS_END + tail) == CallsText(calls, tail)
  {
    hide INVOKE, CALLS_END, RenderCall, CallText;
    var parts := RenderCalls(calls);
    assert parts[0] == RenderCall(calls[0]) && parts[1..] == RenderCalls(calls[1..]);
    var end := CALLS_END + tail;
    var after := "\n" + if |calls| == 1 then end else JoinLines(parts[1..]) + "\n" + end;
    if |calls| > 1 {
      CallsRenderedAs(calls[1..], tail);
      assert ">" + after == ">\n" + JoinLines(parts[1..]) + "\n" + end;
    } else {
      assert ">" + after == ">\n" + end;
    }
    CallRenderedAs(calls[0], after);
    assert JoinLines(parts) + "\n" + end == parts[0] + after;
    assert ">\n" + JoinLines(parts) + "\n" + end == ">\n" + (parts[0] + after);
  }

  // ---- The scanner on rendered text ----

  /** A token that lacks the character `c` cannot lie across it. */
  lemma SplitAt(a: string, c: char, b: string, s: string)
    requires s != "" && forall k :: 0 <= k < |s| ==> s[k] != c
    requires !Contains(a, s) && !Contains(b, s)
    ensures !Contains(a + [c] + b, s)
  {
    var text, p := a + [c] + b, |a|;
    assert text[p] == c;
    forall i: nat ensures !OccursAt(text, s, i) {
      assert !OccursAt(a, s, i) && (i > p ==> !OccursAt(b, s, i - p - 1));
      if i + |s| <= p {
        assert a[i..i + |s|] == text[i..i + |s|];
      } else if p < i && i + |s| <= |text| {
        assert b[i - p - 1..i - p - 1 + |s|] == text[i..i + |s|];
      } else if i <= p && i + |s| <= |text| {
        assert text[i..i + |s|][p - i] == c;
      }
    }
  }

  lemma NoHeadNoOccurrence(t: string, s: string)
    requires s != "" && forall i :: 0 <= i < |t| ==> t[i] != s[0]
    ensures !Contains(t, s)
  {
    forall i: nat ensures !OccursAt(t, s, i) {
      if i + |s| <= |t| { assert t[i..i + |s|][0] == t[i]; }
    }
  }

  /** A parameter body contains the closing token only inside its key or its value. */
  lemma ArgBodyFree(a: Arg, follow: string)
    requires CleanArg(a) && follow != "" && follow[0] == '/'
    ensures FreeOf(ArgBody(a), PARAM_END, follow)
  {
    SlashToken();
    NoStraddleByHead(PARAM_END, follow, '/');
    var b := TrueFalse(a.isString);
    var head, s := " name=" + ['"'] + a.key, PARAM_END;
    NoHeadNoOccurrence(" name=", s);
    NoHeadNoOccurrence(" string=", s);
    NoHeadNoOccurrence(b, s);
    NoHeadNoOccurrence("", s);
    BodyPieces(a);
    hide PARAM_END, KEY, IS_TRUE, IS_FALSE, VALUE_TAIL, ArgBody, TrueFalse;
    SplitAt(" name=", '"', a.key, s);
    SplitAt(b, '"', "", s);
    SplitAt(" string=", '"', b + ['"'] + "", s);
    SplitAt(head, '"', " string=" + ['"'] + (b + ['"'] + ""), s);
    SplitAt(head + ['"'] + (" string=" + ['"'] + (b + ['"'] + "")), '>', a.value, s);
    SplitAt(head + ['"'] + (" string=" + ['"'] + (b + ['"'] + "")) + ['>'] + a.value, '<', "", s);
    FreeOfIntro(ArgBody(a), PARAM_END, follow);
  }

  lemma BodyPieces(a: Arg)
    ensures ArgBody(a) ==
            " name=" + ['"'] + a.key + ['"'] + (" string=" + ['"'] + (TrueFalse(a.isString) + ['"'] + "")) + ['>']
            + a.value + ['<'] + ""
  {
    assert " name=" + ['"'] == KEY;
    if a.isString {
      assert ['"'] + (" string=" + ['"'] + ("true" + ['"'] + "")) + ['>'] == IS_TRUE;
    } else {
      assert ['"'] + (" string=" + ['"'] + ("false" + ['"'] + "")) + ['>'] == IS_FALSE;
    }
    hide KEY, IS_TRUE, IS_FALSE;
    var marker := if a.isString then IS_TRUE else IS_FALSE;
    var middle := " string=" + ['"'] + (TrueFalse(a.isString) + ['"'] + "");
    assert KEY + a.key + (['"'] + middle + ['>']) + a.value == KEY + a.key + ['"'] + middle + ['>'] + a.value;
  }

  /** A text without `<` followed by a token starting with `<`. */
  lemma NoAngleFree(content: string, s: string, follow: string)
    requires s != "" && s[0] == '<'
    requires forall i :: 0 <= i < |content| ==> content[i] != '<'
    ensures FreeOf(content, s, follow)
  {
    forall i | 0 <= i < |content| ensures !OccursAt(content + follow, s, i) {
      if i + |s| <= |content + follow| { assert (content + follow)[i..i + |s|][0] == content[i]; }
    }
  }

  lemma ParamOrInvokeEnd(stop: string, rest: string)
    requires stop == PARAM || stop == INVOKE_END
    ensures forall s :: s in [PARAM, INVOKE_END] && s != stop ==> !(s <= stop + rest)
  {
    if stop == PARAM { Differ(INVOKE_END, stop, rest, 1); } else { Differ(PARAM, stop, rest, 1); }
  }

  lemma ParamParses(index: nat, text: string, done: seq<Arg>, a: Arg, stop: string, rest: string)
    requires index <= |text| && text[index..] == ArgBody(a) + PARAM_END + (">\n" + (stop + rest))
    requires stop == PARAM || stop == INVOKE_END
    requires CleanArg(a) && a.key !in Keys(done)
    ensures |rest| < |text| && text[|text| - |rest|..] == rest
    ensures ParseParam(index, text, done) == Ok(ArgsRead(|text| - |rest|, done + [a], Some(stop)))
  {
    hide Nearest, MatchParam, ArgBody, Contains;
    SlashToken();
    ArgBodyFree(a, PARAM_END + (">\n" + (stop + rest)));
    ReadStep(index, text, [PARAM_END], ArgBody(a), PARAM_END, ">\n" + (stop + rest));
    assert ArgBody(a) + Blank(false) == ArgBody(a);
    MatchParamRendered(a, false);
    AfterParam(index + |ArgBody(a)| + |PARAM_END|, text, stop, rest);
  }

  /** From a finished parameter to the next one, or to the end of the call. */
  lemma AfterParam(index: nat, text: string, stop: string, rest: string)
    requires index <= |text| && text[index..] == ">\n" + (stop + rest)
    requires stop == PARAM || stop == INVOKE_END
    ensures |rest| < |text| && text[|text| - |rest|..] == rest
    ensures ReadUntil(index, text, [PARAM, INVOKE_END]) == Read(|text| - |rest|, ">\n", Some(stop))
  {
    hide Nearest, PARAM, INVOKE_END;
    AngleTokens();
    NoAngleFree(">\n", PARAM, stop + rest);
    NoAngleFree(">\n", INVOKE_END, stop + rest);
    ParamOrInvokeEnd(stop, rest);
    assert text[index..] == ">\n" + stop + rest;
    ReadStep(index, text, [PARAM, INVOKE_END], ">\n", stop, rest);
  }

  lemma {:induction false} ArgsParse(index: nat, text: string, done: seq<Arg>, args: seq<Arg>, tail: string)
    requires args != [] && index <= |text| && text[index..] == ArgsText(args, tail)
    requires CleanArgs(done + args)
    ensures |tail| < |text| && text[|text| - |tail|..] == tail
    ensures ParseParams(index, text, done, Some(PARAM)) ==
            Ok(ArgsRead(|text| - |tail|, done + args, Some(INVOKE_END)))
    decreases |args|
  {
    hide ParseParam, ArgBody;
    var a := args[0];
    assert (done + args)[|done|] == a;
    forall x | x in done ensures x.key != a.key {
      var i :| 0 <= i < |done| && done[i] == x;
      assert (done + args)[i] == x;
    }
    if |args| == 1 {
      ParamParses(index, text, done, a, INVOKE_END, tail);
      assert args == [a];
    } else {
      var rest := ArgsText(args[1..], tail);
      ParamParses(index, text, done, a, PARAM, rest);
      assert done + args == done + [a] + args[1..];
      ArgsParse(|text| - |rest|, text, done + [a], args[1..], tail);
    }
  }

  lemma NameFree(name: string, more: string, s: string, follow: string)
    requires s == PARAM || s == INVOKE_END
    requires !Contains(name, s) && (more == "" || more == "\n") && follow != "" && follow[0] == '<'
    ensures FreeOf(KEY + name + NAME_TAIL + more, s, follow)
  {
    AngleTokens();
    NoQuoteTokens();
    NoHeadNoOccurrence(" name=", s);
    NoHeadNoOccurrence(">\n" + more, s);
    NoStraddleByHead(s, follow, '<');
    assert KEY == " name=" + ['"'] && NAME_TAIL == ['"'] + ">\n";
    hide KEY, NAME_TAIL, PARAM, INVOKE_END;
    var content := KEY + name + NAME_TAIL + more;
    assert content == " name=" + ['"'] + name + ['"'] + (">\n" + more);
    SplitAt(" name=", '"', name, s);
    SplitAt(" name=" + ['"'] + name, '"', ">\n" + more, s);
    FreeOfIntro(content, s, follow);
  }

  lemma NoQuoteTokens()
    ensures forall k :: 0 <= k < |PARAM| ==> PARAM[k] != '"'
    ensures forall k :: 0 <= k < |INVOKE_END| ==> INVOKE_END[k] != '"'
  {
  }

  /** From a block opening or a finished call to the next invoke token. */
  lemma NextCall(index: nat, text: string, body: string)
    requires index <= |text| && text[index..] == ">\n" + (INVOKE + body)
    ensures ReadUntil(index, text, [INVOKE, CALLS_END]) == Read(index + 2 + |INVOKE|, ">\n", Some(INVOKE))
    ensures text[index + 2 + |INVOKE|..] == body
  {
    AngleTokens();
    NoAngleFree(">\n", INVOKE, INVOKE + body);
    NoAngleFree(">\n", CALLS_END, INVOKE + body);
    Differ(CALLS_END, INVOKE, body, 1);
    hide Nearest, INVOKE, CALLS_END;
    assert text[index..] == ">\n" + INVOKE + body;
    ReadStep(index, text, [INVOKE, CALLS_END], ">\n", INVOKE, body);
  }

  lemma BlockEnd(index: nat, text: string, tail: string)
    requires index <= |text| && text[index..] == ">\n" + (CALLS_END + tail)
    ensures ReadUntil(index, text, [INVOKE, CALLS_END]) == Read(|text| - |tail|, ">\n", Some(CALLS_END))
    ensures |tail| < |text| && text[|text| - |tail|..] == tail
  {
    AngleTokens();
    NoAngleFree(">\n", INVOKE, CALLS_END + tail);
    NoAngleFree(">\n", CALLS_END, CALLS_END + tail);
    Differ(INVOKE, CALLS_END, tail, 1);
    hide Nearest, INVOKE, CALLS_END;
    assert text[index..] == ">\n" + CALLS_END + tail;
    ReadStep(index, text, [INVOKE, CALLS_END], ">\n", CALLS_END, tail);
  }

  lemma NameParses(index: nat, text: string, name: string, more: string, stop: string, rest: string)
    requires index <= |text| && text[index..] == KEY + name + NAME_TAIL + more + (stop + rest)
    requires more == "" || more == "\n"
    requires stop == PARAM || stop == INVOKE_END
    requires !Contains(name, PARAM) && !Contains(name, INVOKE_END)
    ensures var content := KEY + name + NAME_TAIL + more;
            && ReadUntil(index, text, [PARAM, INVOKE_END]) == Read(index + |content| + |stop|, content, Some(stop))
            && text[index + |content| + |stop|..] == rest
            && MatchName(content) == Some(name)
  {
    AngleTokens();
    ParamOrInvokeEnd(stop, rest);
    NameFree(name, more, PARAM, stop + rest);
    NameFree(name, more, INVOKE_END, stop + rest);
    MatchNameRendered(name, more == "\n");
    hide Nearest, PARAM, INVOKE_END, KEY, NAME_TAIL, MatchName;
    var content := KEY + name + NAME_TAIL + more;
    assert text[index..] == content + stop + rest;
    ReadStep(index, text, [PARAM, INVOKE_END], content, stop, rest);
  }

  /** What the body of one call must scan to. */
  ghost predicate BodyScans(next: nat, text: string, c: ToolCall, end: nat)
    requires next <= |text|
  {
    var r := ReadUntil(next, text, [PARAM, INVOKE_END]);
    && MatchName(r.content) == Some(c.name)
    && ParseParams(r.next, text, [], r.stop) == Ok(ArgsRead(end, c.args, Some(INVOKE_END)))
  }

  lemma CallFromPieces(index: nat, text: string, done: seq<ToolCall>, next: nat, c: ToolCall, end: nat)
    requires index < |text| && next <= |text|
    requires ReadUntil(index, text, [INVOKE, CALLS_END]) == Read(next, ">\n", Some(INVOKE))
    requires BodyScans(next, text, c, end)
    ensures ParseCall(index, text, done) == Ok((CallsRead(end, Some(INVOKE_END), done + [c]), false))
  {
    hide ReadUntil, MatchName, ParseParams, INVOKE, INVOKE_END, PARAM, CALLS_END;
    TokensDiffer();
  }

  lemma CallParses(index: nat, text: string, done: seq<ToolCall>, c: ToolCall, tail: string)
    requires index < |text| && text[index..] == ">\n" + (INVOKE + CallText(c, tail))
    requires CleanCall(c)
    ensures |tail| < |text| && text[|text| - |tail|..] == tail
    ensures ParseCall(index, text, done) == Ok((CallsRead(|text| - |tail|, Some(INVOKE_END), done + [c]), false))
  {
    hide ParseCall, ReadUntil, BodyScans, CallText, CleanCall, INVOKE, INVOKE_END, CALLS_END;
    NextCall(index, text, CallText(c, tail));
    if c.args == [] { BareCallScans(index + 2 + |INVOKE|, text, c, tail); }
    else { CallScans(index + 2 + |INVOKE|, text, c, tail); }
    CallFromPieces(index, text, done, index + 2 + |INVOKE|, c, |text| - |tail|);
  }

  /** A call without parameters: a blank line stands where they would be. */
  lemma BareCallScans(index: nat, text: string, c: ToolCall, tail: string)
    requires index <= |text| && text[index..] == CallText(c, tail) && CleanCall(c) && c.args == []
    ensures |tail| < |text| && text[|text| - |tail|..] == tail
    ensures BodyScans(index, text, c, |text| - |tail|)
  {
    hide ReadUntil, MatchName, ParseParam, INVOKE_END, PARAM, KEY, NAME_TAIL, CleanArgs, Contains;
    TokensDiffer();
    var head, more := KEY + c.name + NAME_TAIL, INVOKE_END + tail;
    assert head + ("\n" + more) == head + "\n" + more;
    NameParses(index, text, c.name, "\n", INVOKE_END, tail);
  }

  lemma CallScans(index: nat, text: string, c: ToolCall, tail: string)
    requires index <= |text| && text[index..] == CallText(c, tail) && CleanCall(c) && c.args != []
    ensures |tail| < |text| && text[|text| - |tail|..] == tail
    ensures BodyScans(index, text, c, |text| - |tail|)
  {
    hide ReadUntil, MatchName, ParseParams, ArgsText, INVOKE_END, PARAM, KEY, NAME_TAIL, CleanArgs, CallText, Contains;
    var rest := ArgsText(c.args, tail);
    CallTextOf(c, tail);
    NameParses(index, text, c.name, "", PARAM, rest);
    assert [] + c.args == c.args;
    ArgsParse(|text| - |rest|, text, [], c.args, tail);
  }

  lemma CallTextOf(c: ToolCall, tail: string)
    requires c.args != []
    ensures CallText(c, tail) == KEY + c.name + NAME_TAIL + "" + (PARAM + ArgsText(c.args, tail))
  {
    hide PARAM, KEY, NAME_TAIL, ArgsText;
    assert KEY + c.name + NAME_TAIL + "" == KEY + c.name + NAME_TAIL;
  }

  lemma CallsEndParses(index: nat, text: string, done: seq<ToolCall>, tail: string)
    requires index <= |text| && text[index..] == ">\n" + (CALLS_END + tail)
    ensures index < |text| && |tail| < |text| && text[|text| - |tail|..] == tail
    ensures ParseCall(index, text, done) == Ok((CallsRead(|text| - |tail|, Some(CALLS_END), done), true))
  {
    hide ReadUntil, CALLS_END, INVOKE;
    BlockEnd(index, text, tail);
  }

  lemma {:induction false} CallsParse(index: nat, text: string, stop: Option<string>, done: seq<ToolCall>,
                                      calls: seq<ToolCall>, tail: string)
    requires index <= |text| && text[index..] == CallsText(calls, tail)
    requires forall c :: c in calls ==> CleanCall(c)
    ensures |tail| <= |text| && text[|text| - |tail|..] == tail
    ensures ParseCalls(index, text, stop, done) == Ok(CallsRead(|text| - |tail|, Some(CALLS_END), done + calls))
    decreases |calls|
  {
    hide ParseCall, CallText, CleanCall, INVOKE, CALLS_END;
    if calls == [] {
      CallsEndParses(index, text, done, tail);
      assert done + calls == done;
    } else {
      var after := CallsText(calls[1..], tail);
      CallParses(index, text, done, calls[0], after);
      CallsParse(|text| - |after|, text, Some(INVOKE_END), done + [calls[0]], calls[1..], tail);
      assert done + calls == done + [calls[0]] + calls[1..];
    }
  }
}
