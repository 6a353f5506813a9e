/** Cutting text and log probabilities at the first stop sequence. Log probabilities themselves stay opaque. */
module StopTruncation {
  import opened Wrappers
  import opened Text
  import opened Generator

  type LogProb = Option<string>

  datatype Payload = Payload(tokens: seq<string>, logprobs: seq<LogProb>, top: Option<seq<LogProb>>, offsets: seq<int>)

  /** The lists a payload carries are aligned and its offsets ascend. */
  ghost predicate WellFormed(p: Payload) {
    && |p.tokens| == |p.logprobs| == |p.offsets| && (p.top.Some? ==> |p.top.value| == |p.tokens|) && Sorted(p.offsets)
  }

  // ---- to_openai_logprobs ----

  function Min(a: nat, b: nat): nat {
    if a < b then a else b
  }

  /** The three lists cut to the shortest of them; `wantTop` repeats the sampled token's entry. */
  function ToOpenAiLogprobs(tokens: seq<string>, logprobs: seq<LogProb>, offsets: seq<int>, wantTop: bool): Payload {
    var n := Min(Min(|tokens|, |logprobs|), |offsets|);
    Payload(tokens[..n], logprobs[..n], if wantTop then Some(logprobs[..n]) else None, offsets[..n])
  }

  /** Offsets computed by the generator make a well-formed payload for any decoder, even if the lists disagree. */
  lemma GeneratedPayloadWellFormed(decode: seq<Token> -> string, ids: seq<Token>, tokens: seq<string>,
                                   logprobs: seq<LogProb>, wantTop: bool)
    ensures WellFormed(ToOpenAiLogprobs(tokens, logprobs, Offsets(decode, ids), wantTop))
  {
    OffsetsSorted(decode, ids);
  }

  // ---- bisect_left ----

  /** Python's binary search, on any list: the loop always halves the range. */
  method BisectLeft(a: seq<int>, x: int) returns (r: nat)
    ensures r <= |a|
    ensures Sorted(a) ==> (forall i :: 0 <= i < r ==> a[i] < x) && (forall i :: r <= i < |a| ==> a[i] >= x)
  {
    var lo, hi := 0, |a|;
    while lo < hi
      invariant 0 <= lo <= hi <= |a|
      invariant Sorted(a) ==> (forall i :: 0 <= i < lo ==> a[i] < x) && (forall i :: hi <= i < |a| ==> a[i] >= x)
    {
      var mid := (lo + hi) / 2;
      if a[mid] < x { lo := mid + 1; } else { hi := mid; }
    }
    r := lo;
  }

  // ---- apply_stops_to_text_and_logprobs ----

  /** The earliest position of any non-empty stop, None when no stop occurs. */
  function FirstStop(text: string, stops: seq<string>): (r: Option<nat>)
    ensures r.Some? ==> exists s :: s in stops && s != "" && OccursAt(text, s, r.value)
    ensures forall s, i: nat :: s in stops && s != "" && OccursAt(text, s, i) ==> r.Some? && r.value <= i
  {
    if stops == [] then None
    else
      var front, s := FirstStop(text, stops[..|stops| - 1]), stops[|stops| - 1];
      assert forall x :: x in stops <==> x in stops[..|stops| - 1] || x == s;
      var i := Find(text, s, 0);
      if s == "" || i.None? then front
      else if front.None? then i
      else if i.value < front.value then i else front
  }

  /** Number of leading offsets below `cut`, on ascending offsets. */
  function Below(offsets: seq<int>, cut: int): (n: nat)
    ensures n <= |offsets|
  {
    if offsets == [] || offsets[|offsets| - 1] < cut then |offsets| else Below(offsets[..|offsets| - 1], cut)
  }

  function Truncate(p: Payload, n: nat): Payload
    requires WellFormed(p) && n <= |p.tokens|
  {
    Payload(p.tokens[..n], p.logprobs[..n], if p.top.Some? then Some(p.top.value[..n]) else None, p.offsets[..n])
  }

  function ApplyStops(text: string, payload: Option<Payload>, stops: seq<string>): (string, Option<Payload>, bool)
    requires payload.Some? ==> WellFormed(payload.value)
  {
    var cut := FirstStop(text, stops);
    if cut.None? then (text, payload, false)
    else
      (text[..cut.value],
       if payload.Some? then Some(Truncate(payload.value, Below(payload.value.offsets, cut.value))) else None, true)
  }

  /** The third result is the finish reason "stop", false for None. */
  method ApplyStopsToTextAndLogprobs(text: string, payload: Option<Payload>, stops: seq<string>)
    returns (newText: string, newPayload: Option<Payload>, stopped: bool)
    requires payload.Some? ==> WellFormed(payload.value)
    ensures (newText, newPayload, stopped) == ApplyStops(text, payload, stops)
  {
    var first: int := -1;
    for k := 0 to |stops|
      invariant first == if FirstStop(text, stops[..k]).Some? then FirstStop(text, stops[..k]).value else -1
    {
      assert stops[..k + 1][..k] == stops[..k];
      if stops[k] != "" {
        var i := Find(text, stops[k], 0);
        if i.Some? {
          first := if first == -1 then i.value else if i.value < first then i.value else first;
        }
      }
    }
    assert stops[..|stops|] == stops;
    if first == -1 { return text, payload, false; }
    newText := text[..first];
    newPayload := payload;
    if payload.Some? {
      var n := BisectLeft(payload.value.offsets, first);
      BelowIsPartition(payload.value.offsets, first, n);
      newPayload := Some(Truncate(payload.value, n));
    }
    stopped := true;
  }

  lemma {:induction false} BelowIsPartition(a: seq<int>, x: int, n: nat)
    requires Sorted(a) && n <= |a|
    requires (forall i :: 0 <= i < n ==> a[i] < x) && (forall i :: n <= i < |a| ==> a[i] >= x)
    ensures Below(a, x) == n
  {
    if n < |a| { BelowIsPartition(a[..|a| - 1], x, n); }
  }

  lemma {:induction false} BelowPartitions(a: seq<int>, x: int)
    requires Sorted(a)
    ensures forall i :: 0 <= i < |a| ==> (a[i] < x <==> i < Below(a, x))
  {
    if a != [] && a[|a| - 1] >= x { BelowPartitions(a[..|a| - 1], x); }
  }

  // ---- What the cut guarantees ----

  lemma ContainsExtends(t: string, text: string, s: string)
    requires t <= text && Contains(t, s)
    ensures exists i: nat :: i + |s| <= |t| && OccursAt(text, s, i)
  {
    var i := Find(t, s, 0).value;
    assert text[i..i + |s|] == t[i..i + |s|];
    assert OccursAt(text, s, i);
  }

  /** The result holds no stop sequence, and it is the text itself or the text up to the earliest stop. */
  lemma CutAtEarliestStop(text: string, payload: Option<Payload>, stops: seq<string>)
    requires payload.Some? ==> WellFormed(payload.value)
    ensures var (t, _, stopped) := ApplyStops(text, payload, stops);
            && t <= text
            && (forall s :: s in stops && s != "" ==> !Contains(t, s))
            && (stopped <==> exists s :: s in stops && s != "" && Contains(text, s))
            && (!stopped ==> t == text)
            && (stopped ==> (exists s :: s in stops && s != "" && OccursAt(text, s, |t|))
                            && forall s, i: nat :: s in stops && s != "" && OccursAt(text, s, i) ==> |t| <= i)
  {
    var (t, _, stopped) := ApplyStops(text, payload, stops);
    forall s | s in stops && s != "" ensures !Contains(t, s) {
      if Contains(t, s) { ContainsExtends(t, text, s); }
    }
    if stopped {
      var s :| s in stops && s != "" && OccursAt(text, s, |t|);
      ContainsAt(text, s, |t|);
    }
  }

  /** The kept tokens are exactly those whose offset lies before the cut, in all lists alike. */
  lemma KeptTokens(text: string, payload: Payload, stops: seq<string>)
    requires WellFormed(payload)
    ensures var (t, p, stopped) := ApplyStops(text, Some(payload), stops);
            && p.Some? && WellFormed(p.value) && p.value.tokens <= payload.tokens && p.value.offsets <= payload.offsets
            && p.value.logprobs <= payload.logprobs && p.value.top.Some? == payload.top.Some?
            && (p.value.top.Some? ==> p.value.top.value <= payload.top.value)
            && if stopped
               then forall i :: 0 <= i < |payload.offsets| ==> (payload.offsets[i] < |t| <==> i < |p.value.tokens|)
               else p.value == payload
  {
    var cut := FirstStop(text, stops);
    if cut.Some? { BelowPartitions(payload.offsets, cut.value); }
  }

  /** Cutting twice changes nothing more. */
  lemma CutIdempotent(text: string, payload: Option<Payload>, stops: seq<string>)
    requires payload.Some? ==> WellFormed(payload.value)
    ensures var (t, p, _) := ApplyStops(text, payload, stops);
            (p.Some? ==> WellFormed(p.value)) && ApplyStops(t, p, stops) == (t, p, false)
  {
    CutAtEarliestStop(text, payload, stops);
    if payload.Some? { KeptTokens(text, payload.value, stops); }
    var (t, p, _) := ApplyStops(text, payload, stops);
    assert FirstStop(t, stops).None?;
  }
}
