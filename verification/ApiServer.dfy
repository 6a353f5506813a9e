/** The batching server: clients submit and poll, rank 0 collects, prepares and publishes, and every step may
    interleave with every other. Texts produced by the model, payload size and failures are chosen by the action. */
module ApiServer {
  import opened Wrappers

  type Id = nat
  type Prompt = string

  /** A request as `get_prompts_for_request` sees it: its prompts, or None when that raises ValueError. */
  datatype Request = ChatRequest(prompt: Option<Prompt>) | CompletionRequest(prompts: Option<seq<Prompt>>)

  function PromptsOf(req: Request): Option<seq<Prompt>> {
    match req
    case ChatRequest(p) => if p.Some? then Some([p.value]) else None
    case CompletionRequest(ps) => ps
  }

  /** A completion carries the prompt it was generated from. */
  datatype Completion = Completion(prompt: Prompt, text: string)

  datatype Reason = InvalidRequest | PayloadTooLarge | InferenceFailed

  datatype Response = Answer(choices: seq<Completion>) | Error(reason: Reason)

  datatype Item = Item(id: Id, req: Request)

  /** A row of `request_info_map`. */
  datatype Entry = Entry(id: Id, req: Request, count: nat)

  datatype Phase =
    | Collecting(batch: seq<Item>)
    | Preparing(todo: seq<Item>, prompts: seq<Prompt>, info: seq<Entry>)
    | Generating(prompts: seq<Prompt>, info: seq<Entry>)
    | Publishing(completions: seq<Completion>, info: seq<Entry>, done: nat, at: nat)
    | Failing(info: seq<Entry>, done: nat, reason: Reason)

  /** Where a submitted request is. */
  datatype Place = Queued | InRound | Answered | Lost

  /** One successful call of the model: the requests it served and the texts it gave, in the order of their prompts. */
  datatype Call = Call(info: seq<Entry>, texts: seq<string>)

  /** `requests`, `place`, `waiting`, `timedOut`, `log` and `calls` record the history that the properties speak about. */
  datatype State = State(
    queue: seq<Item>, responses: map<Id, Response>, phase: Phase,
    requests: map<Id, Request>, place: map<Id, Place>, waiting: set<Id>, timedOut: set<Id>,
    log: seq<(Id, Response)>, calls: seq<Call>)

  datatype Action =
    | Submit(id: Id, req: Request)
    | Poll(id: Id)
    | Timeout(id: Id)
    | Take
    | Close
    | Prepare
    | Broadcast(tooLarge: bool)
    | Generate(texts: Option<seq<string>>)
    | Publish(raises: bool)
    | Fail

  const INIT := State([], map[], Collecting([]), map[], map[], {}, {}, [], [])

  function Zip(prompts: seq<Prompt>, texts: seq<string>): (r: seq<Completion>)
    requires |prompts| == |texts|
    ensures |r| == |prompts| && forall i :: 0 <= i < |r| ==> r[i] == Completion(prompts[i], texts[i])
  {
    seq(|prompts|, i requires 0 <= i < |prompts| => Completion(prompts[i], texts[i]))
  }

  /** A chat response is built from the first completion, a completion response from one completion per prompt. */
  function CreateResponse(req: Request, completions: seq<Completion>): Response
    requires req.ChatRequest? ==> completions != []
  {
    if req.ChatRequest? then Answer([completions[0]]) else Answer(completions)
  }

  function Post(s: State, id: Id, r: Response, phase: Phase): State {
    s.(responses := s.responses[id := r], phase := phase, place := s.place[id := Answered])
  }

  function PrepareOne(s: State): State
    requires s.phase.Preparing? && s.phase.todo != []
  {
    var p := s.phase;
    var item := p.todo[0];
    var ps := PromptsOf(item.req);
    if ps.None? then Post(s, item.id, Error(InvalidRequest), Preparing(p.todo[1..], p.prompts, p.info))
    else
      s.(phase := Preparing(p.todo[1..], p.prompts + ps.value, p.info + [Entry(item.id, item.req, |ps.value|)]))
  }

  predicate Mentions(info: seq<Entry>, id: Id) {
    exists e :: e in info && e.id == id
  }

  /** The end of `_prepare_batch_for_broadcast`: with no prompt at all the round is skipped without any answer. */
  function BroadcastOne(s: State, tooLarge: bool): State
    requires s.phase.Preparing?
  {
    var p := s.phase;
    if p.prompts == [] then
      s.(phase := Collecting([]),
         place := map id | id in s.place :: if Mentions(p.info, id) then Lost else s.place[id])
    else if tooLarge then s.(phase := Failing(p.info, 0, PayloadTooLarge))
    else s.(phase := Generating(p.prompts, p.info))
  }

  /** The completions of the next entry are there, and a chat request has one to take. */
  predicate CanPublish(p: Phase)
    requires p.Publishing? && p.done < |p.info|
  {
    p.at + p.info[p.done].count <= |p.completions| && (p.info[p.done].req.ChatRequest? ==> p.info[p.done].count > 0)
  }

  function PublishOne(s: State): State
    requires s.phase.Publishing? && s.phase.done < |s.phase.info| && CanPublish(s.phase)
  {
    var p := s.phase;
    var e := p.info[p.done];
    Post(s, e.id, CreateResponse(e.req, p.completions[p.at..p.at + e.count]),
         Publishing(p.completions, p.info, p.done + 1, p.at + e.count))
  }

  /** A step of a client, None when it is not enabled. */
  function ClientStep(s: State, a: Action): Option<State>
    requires a.Submit? || a.Poll? || a.Timeout?
  {
    match a
    case Submit(id, req) =>
      if id in s.requests || id in s.place then None
      else
        Some(s.(queue := s.queue + [Item(id, req)], requests := s.requests[id := req],
                place := s.place[id := Queued], waiting := s.waiting + {id}))
    case Poll(id) =>
      if id in s.waiting && id in s.responses then
        Some(s.(responses := s.responses - {id}, waiting := s.waiting - {id}, log := s.log + [(id, s.responses[id])]))
      else None
    case Timeout(id) =>
      if id in s.waiting then Some(s.(waiting := s.waiting - {id}, timedOut := s.timedOut + {id})) else None
  }

  /** A step of rank 0's loop, None when it is not enabled. */
  function LoopStep(s: State, a: Action, batchSize: nat): Option<State>
    requires !(a.Submit? || a.Poll? || a.Timeout?)
  {
    var p := s.phase;
    match a
    case Take =>
      if p.Collecting? && |p.batch| < batchSize && s.queue != [] then
        Some(s.(queue := s.queue[1..], phase := Collecting(p.batch + [s.queue[0]]),
                place := s.place[s.queue[0].id := InRound]))
      else None
    case Close =>
      if p.Collecting? && p.batch != [] then Some(s.(phase := Preparing(p.batch, [], []))) else None
    case Prepare => if p.Preparing? && p.todo != [] then Some(PrepareOne(s)) else None
    case Broadcast(tooLarge) => if p.Preparing? && p.todo == [] then Some(BroadcastOne(s, tooLarge)) else None
    case Generate(texts) =>
      if !p.Generating? then None
      else if texts.None? then Some(s.(phase := Failing(p.info, 0, InferenceFailed)))
      else if |texts.value| != |p.prompts| then None
      else
        Some(s.(phase := Publishing(Zip(p.prompts, texts.value), p.info, 0, 0),
                calls := s.calls + [Call(p.info, texts.value)]))
    case Publish(raises) =>
      if !p.Publishing? then None
      else if p.done >= |p.info| then Some(s.(phase := Collecting([])))
      else if raises then Some(s.(phase := Failing(p.info, 0, InferenceFailed)))
      else if CanPublish(p) then Some(PublishOne(s)) else None
    case Fail =>
      if !p.Failing? then None
      else if p.done >= |p.info| then Some(s.(phase := Collecting([])))
      else Some(Post(s, p.info[p.done].id, Error(p.reason), Failing(p.info, p.done + 1, p.reason)))
  }

  function Next(s: State, a: Action, batchSize: nat): Option<State> {
    if a.Submit? || a.Poll? || a.Timeout? then ClientStep(s, a) else LoopStep(s, a, batchSize)
  }

  /** A whole run; None when some action was not enabled. */
  function Run(s: State, actions: seq<Action>, batchSize: nat): Option<State>
    decreases |actions|
  {
    if actions == [] then Some(s)
    else
      var s' := Next(s, actions[0], batchSize);
      if s'.None? then None else Run(s'.value, actions[1..], batchSize)
  }

  // ---- The invariant ----

  /** What a client may receive: an error, or one completion of each of its own prompts, in order. */
  ghost predicate OwnAnswer(req: Request, r: Response) {
    r.Answer? ==>
      && PromptsOf(req).Some?
      && |r.choices| == |PromptsOf(req).value|
      && forall j :: 0 <= j < |r.choices| ==> r.choices[j].prompt == PromptsOf(req).value[j]
  }

  /** The response to the i-th request of a call: one choice for each of its prompts, whose text stands among the texts
      of the call right behind those of the prompts before it. */
  ghost predicate Serves(info: seq<Entry>, i: nat, texts: seq<string>, r: Response)
    requires i < |info|
  {
    var at, own := |AllPrompts(info[..i])|, PromptsOf(info[i].req);
    && r.Answer? && own.Some? && |r.choices| == |own.value| && at + |own.value| <= |texts|
    && forall j :: 0 <= j < |own.value| ==> r.choices[j] == Completion(own.value[j], texts[at + j])
  }

  /** An answer given to `id` comes from a call that served it. */
  ghost predicate Traced(calls: seq<Call>, id: Id, r: Response) {
    r.Answer? ==>
      exists c, i: nat :: c in calls && i < |c.info| && c.info[i].id == id && Serves(c.info, i, c.texts, r)
  }

  /** What may be given to `id`. */
  ghost predicate Fair(s: State, id: Id, r: Response) {
    id in s.requests && OwnAnswer(s.requests[id], r) && Traced(s.calls, id, r)
  }

  ghost predicate OwnAnswers(s: State) {
    && (forall id :: id in s.responses ==> Fair(s, id, s.responses[id]))
    && (forall k :: 0 <= k < |s.log| ==> Fair(s, s.log[k].0, s.log[k].1))
  }

  ghost predicate Delivered(s: State, id: Id) {
    exists k :: 0 <= k < |s.log| && s.log[k].0 == id
  }

  /** No id is delivered twice, a delivered one no longer waits, and whoever waits no longer was delivered or gave up. */
  ghost predicate DeliveredOnce(s: State) {
    && (forall id :: id in s.requests ==> id in s.waiting || id in s.timedOut || Delivered(s, id))
    && (forall i, j :: 0 <= i < j < |s.log| ==> s.log[i].0 != s.log[j].0)
    && (forall k :: 0 <= k < |s.log| ==> s.log[k].0 in s.requests && s.log[k].0 !in s.waiting)
    && s.waiting <= s.requests.Keys
  }

  /** Every request has one place; a stored response means answered, an answered request that is waited for has its
      response stored, and only a request without prompts is lost. */
  ghost predicate Placed(s: State) {
    && s.place.Keys == s.requests.Keys
    && (forall id :: id in s.responses ==> id in s.place && s.place[id] == Answered)
    && (forall id :: id in s.waiting && id in s.place && s.place[id] == Answered ==> id in s.responses)
    && (forall id :: id in s.place && s.place[id] == Lost ==> PromptsOf(s.requests[id]) == Some([]))
  }

  ghost predicate Known(s: State, id: Id, req: Request) {
    id in s.requests && id in s.place && s.requests[id] == req
  }

  /** The queue holds exactly the requests placed there, each once. */
  ghost predicate QueueOk(s: State) {
    && (forall i :: 0 <= i < |s.queue| ==> Known(s, s.queue[i].id, s.queue[i].req) && s.place[s.queue[i].id] == Queued)
    && (forall i, j :: 0 <= i < j < |s.queue| ==> s.queue[i].id != s.queue[j].id)
    && (forall id :: id in s.place && s.place[id] == Queued ==>
         exists i :: 0 <= i < |s.queue| && s.queue[i].id == id)
  }

  /** Items of the round not yet turned into entries, each once and not answered. */
  ghost predicate ItemsOk(s: State, items: seq<Item>) {
    && (forall i :: 0 <= i < |items| ==> Known(s, items[i].id, items[i].req) && s.place[items[i].id] == InRound)
    && (forall i, j :: 0 <= i < j < |items| ==> items[i].id != items[j].id)
  }

  /** Entries of the round: each once, with the right prompt count; from `answered` on they are not yet answered. */
  ghost predicate EntriesOk(s: State, info: seq<Entry>, answered: nat) {
    && (forall i :: 0 <= i < |info| ==>
         && Known(s, info[i].id, info[i].req)
         && PromptsOf(info[i].req).Some? && info[i].count == |PromptsOf(info[i].req).value|
         && (s.place[info[i].id] == InRound || (i < answered && s.place[info[i].id] == Answered)))
    && (forall i, j :: 0 <= i < j < |info| ==> info[i].id != info[j].id)
  }

  /** A request still in the round is among what the phase has left to do. */
  ghost predicate Unfinished(phase: Phase, id: Id) {
    match phase
    case Collecting(batch) => exists i :: 0 <= i < |batch| && batch[i].id == id
    case Preparing(todo, _, info) =>
      (exists i :: 0 <= i < |todo| && todo[i].id == id) || (exists i :: 0 <= i < |info| && info[i].id == id)
    case Generating(_, info) => exists i :: 0 <= i < |info| && info[i].id == id
    case Publishing(_, info, done, _) => exists i :: done <= i < |info| && info[i].id == id
    case Failing(info, done, _) => exists i :: done <= i < |info| && info[i].id == id
  }

  ghost predicate RoundCovered(s: State) {
    forall id :: id in s.place && s.place[id] == InRound ==> Unfinished(s.phase, id)
  }

  ghost predicate RoundOk(s: State) {
    match s.phase
    case Collecting(batch) => ItemsOk(s, batch)
    case Preparing(todo, _, info) =>
      && ItemsOk(s, todo) && EntriesOk(s, info, 0)
      && forall i, j :: 0 <= i < |todo| && 0 <= j < |info| ==> todo[i].id != info[j].id
    case Generating(_, info) => EntriesOk(s, info, 0)
    case Publishing(_, info, done, _) => done <= |info| && EntriesOk(s, info, done)
    case Failing(info, done, _) => done <= |info| && EntriesOk(s, info, |info|)
  }

  /** The prompts of the accepted requests, back to back. */
  function AllPrompts(info: seq<Entry>): seq<Prompt> {
    if info == [] then []
    else
      var e := info[|info| - 1];
      AllPrompts(info[..|info| - 1]) + if PromptsOf(e.req).Some? then PromptsOf(e.req).value else []
  }

  /** Prompts and completions line up with the entries. */
  ghost predicate Aligned(phase: Phase) {
    match phase
    case Collecting(_) => true
    case Preparing(_, prompts, info) => prompts == AllPrompts(info)
    case Generating(prompts, info) => prompts == AllPrompts(info)
    case Publishing(completions, info, done, at) =>
      && done <= |info| && at == |AllPrompts(info[..done])|
      && |completions| == |AllPrompts(info)|
      && forall i :: 0 <= i < |completions| ==> completions[i].prompt == AllPrompts(info)[i]
    case Failing(_, _, _) => true
  }

  /** What is being published is what the last call of the model gave. */
  ghost predicate Called(s: State) {
    s.phase.Publishing? ==>
      && s.calls != []
      && var c, completions := s.calls[|s.calls| - 1], s.phase.completions;
         && c.info == s.phase.info && |c.texts| == |completions|
         && forall i :: 0 <= i < |completions| ==> completions[i].text == c.texts[i]
  }

  ghost predicate Inv(s: State) {
    && OwnAnswers(s) && DeliveredOnce(s) && Placed(s) && QueueOk(s) && RoundOk(s) && RoundCovered(s)
    && Aligned(s.phase) && Called(s)
  }

  // ---- Every step keeps it ----

  lemma AllPromptsStep(info: seq<Entry>, k: nat)
    requires k < |info| && PromptsOf(info[k].req).Some?
    ensures AllPrompts(info[..k + 1]) == AllPrompts(info[..k]) + PromptsOf(info[k].req).value
  {
    assert info[..k + 1][..k] == info[..k];
  }

  lemma {:induction false} AllPromptsPrefix(info: seq<Entry>, k: nat)
    requires k <= |info|
    ensures AllPrompts(info[..k]) <= AllPrompts(info)
  {
    if k == |info| {
      assert info[..k] == info;
    } else {
      AllPromptsPrefix(info[..|info| - 1], k);
      assert info[..|info| - 1][..k] == info[..k];
    }
  }

  function Texts(completions: seq<Completion>): (texts: seq<string>)
    ensures |texts| == |completions| && forall i :: 0 <= i < |texts| ==> texts[i] == completions[i].text
  {
    seq(|completions|, i requires 0 <= i < |completions| => completions[i].text)
  }

  /** The completions sliced for the next entry are those of its own prompts. */
  lemma OwnSlice(p: Phase)
    requires Aligned(p) && p.Publishing? && p.done < |p.info|
    requires PromptsOf(p.info[p.done].req).Some? && p.info[p.done].count == |PromptsOf(p.info[p.done].req).value|
    ensures CanPublish(p)
    ensures var e := p.info[p.done];
            var r := CreateResponse(e.req, p.completions[p.at..p.at + e.count]);
            && OwnAnswer(e.req, r) && Serves(p.info, p.done, Texts(p.completions), r)
            && p.at + e.count == |AllPrompts(p.info[..p.done + 1])|
  {
    hide AllPrompts;
    var e := p.info[p.done];
    AllPromptsStep(p.info, p.done);
    AllPromptsPrefix(p.info, p.done + 1);
    var all, own := AllPrompts(p.info), PromptsOf(e.req).value;
    assert all[..p.at + e.count] == AllPrompts(p.info[..p.done]) + own;
    forall j | 0 <= j < e.count ensures p.completions[p.at + j].prompt == own[j] {
      assert all[p.at + j] == all[..p.at + e.count][p.at + j];
    }
  }

  lemma ClientStepKeepsInv(s: State, a: Action)
    requires (a.Submit? || a.Poll? || a.Timeout?) && ClientStep(s, a).Some?
    requires Inv(s)
    ensures Inv(ClientStep(s, a).value)
  {
    ClientAnswers(s, a);
    ClientQueue(s, a);
    ClientRound(s, a);
    hide OwnAnswers, DeliveredOnce, Placed, QueueOk, RoundOk, RoundCovered, Aligned;
  }

  lemma ClientAnswers(s: State, a: Action)
    requires (a.Submit? || a.Poll? || a.Timeout?) && ClientStep(s, a).Some?
    requires OwnAnswers(s) && DeliveredOnce(s) && Placed(s)
    ensures var s' := ClientStep(s, a).value; OwnAnswers(s') && DeliveredOnce(s') && Placed(s')
  {
    hide OwnAnswers, DeliveredOnce, Placed;
    ClientOwn(s, a);
    ClientDelivery(s, a);
    ClientPlaces(s, a);
  }

  lemma ClientOwn(s: State, a: Action)
    requires (a.Submit? || a.Poll? || a.Timeout?) && ClientStep(s, a).Some? && OwnAnswers(s)
    ensures OwnAnswers(ClientStep(s, a).value)
  {
    hide OwnAnswer;
  }

  lemma ClientPlaces(s: State, a: Action)
    requires (a.Submit? || a.Poll? || a.Timeout?) && ClientStep(s, a).Some? && Placed(s)
    ensures Placed(ClientStep(s, a).value)
  {
  }

  lemma ClientDelivery(s: State, a: Action)
    requires (a.Submit? || a.Poll? || a.Timeout?) && ClientStep(s, a).Some?
    requires OwnAnswers(s) && DeliveredOnce(s)
    ensures DeliveredOnce(ClientStep(s, a).value)
  {
    hide OwnAnswer, Delivered;
    var s' := ClientStep(s, a).value;
    forall id | id in s'.requests ensures id in s'.waiting || id in s'.timedOut || Delivered(s', id) {
      DeliveredStays(s, a, id);
    }
  }

  lemma DeliveredStays(s: State, a: Action, id: Id)
    requires (a.Submit? || a.Poll? || a.Timeout?) && ClientStep(s, a).Some?
    ensures Delivered(s, id) || (a.Poll? && a.id == id) ==> Delivered(ClientStep(s, a).value, id)
  {
    var s' := ClientStep(s, a).value;
    if Delivered(s, id) {
      var k :| 0 <= k < |s.log| && s.log[k].0 == id;
      assert s'.log[k].0 == id;
    }
    if a.Poll? { assert s'.log[|s.log|].0 == a.id; }
  }

  lemma ClientQueue(s: State, a: Action)
    requires (a.Submit? || a.Poll? || a.Timeout?) && ClientStep(s, a).Some?
    requires QueueOk(s) && Placed(s)
    ensures QueueOk(ClientStep(s, a).value)
  {
    if a.Submit? {
      var s' := ClientStep(s, a).value;
      assert s'.queue[|s.queue|].id == a.id;
      forall id | id in s'.place && s'.place[id] == Queued && id != a.id
        ensures exists i :: 0 <= i < |s'.queue| && s'.queue[i].id == id
      {
        var i :| 0 <= i < |s.queue| && s.queue[i].id == id;
        assert s'.queue[i].id == id;
      }
    }
  }

  lemma ClientRound(s: State, a: Action)
    requires (a.Submit? || a.Poll? || a.Timeout?) && ClientStep(s, a).Some?
    requires RoundOk(s) && RoundCovered(s)
    ensures RoundOk(ClientStep(s, a).value) && RoundCovered(ClientStep(s, a).value)
  {
    hide Unfinished;
  }

  lemma TakeKeepsInv(s: State, batchSize: nat)
    requires Inv(s) && LoopStep(s, Take, batchSize).Some?
    ensures Inv(LoopStep(s, Take, batchSize).value)
  {
    hide OwnAnswers, DeliveredOnce, Placed, QueueOk, RoundOk, RoundCovered;
    TakeAnswers(s, batchSize);
    TakeQueue(s, batchSize);
    TakeRound(s, batchSize);
  }

  lemma TakeAnswers(s: State, batchSize: nat)
    requires OwnAnswers(s) && DeliveredOnce(s) && Placed(s) && QueueOk(s) && LoopStep(s, Take, batchSize).Some?
    ensures var s' := LoopStep(s, Take, batchSize).value; OwnAnswers(s') && DeliveredOnce(s') && Placed(s')
  {
    hide OwnAnswer;
    var s' := LoopStep(s, Take, batchSize).value;
    assert Known(s, s.queue[0].id, s.queue[0].req);
    forall id | Delivered(s, id) ensures Delivered(s', id) {
      var k :| 0 <= k < |s.log| && s.log[k].0 == id;
      assert s'.log[k].0 == id;
    }
  }

  lemma TakeQueue(s: State, batchSize: nat)
    requires QueueOk(s) && LoopStep(s, Take, batchSize).Some?
    ensures QueueOk(LoopStep(s, Take, batchSize).value)
  {
    var s' := LoopStep(s, Take, batchSize).value;
    forall id | id in s'.place && s'.place[id] == Queued ensures exists i :: 0 <= i < |s'.queue| && s'.queue[i].id == id {
      var i :| 0 <= i < |s.queue| && s.queue[i].id == id;
      assert s'.queue[i - 1].id == id;
    }
  }

  lemma TakeRound(s: State, batchSize: nat)
    requires QueueOk(s) && RoundOk(s) && RoundCovered(s) && LoopStep(s, Take, batchSize).Some?
    ensures RoundOk(LoopStep(s, Take, batchSize).value) && RoundCovered(LoopStep(s, Take, batchSize).value)
  {
    var s', item := LoopStep(s, Take, batchSize).value, s.queue[0];
    assert Known(s, item.id, item.req);
    assert s'.phase.batch[|s.phase.batch|].id == item.id;
    forall id | id in s'.place && s'.place[id] == InRound && id != item.id ensures Unfinished(s'.phase, id) {
      assert Unfinished(s.phase, id);
      var i :| 0 <= i < |s.phase.batch| && s.phase.batch[i].id == id;
      assert s'.phase.batch[i].id == id;
    }
  }

  /** A step that only changes the phase. */
  lemma PhaseStepKeepsInv(s: State, phase: Phase)
    requires Inv(s) && RoundOk(s.(phase := phase)) && Aligned(phase) && Called(s.(phase := phase))
    requires forall id :: Unfinished(s.phase, id) ==> Unfinished(phase, id)
    ensures Inv(s.(phase := phase))
  {
    hide OwnAnswer, RoundOk, Aligned, Unfinished, Called, Traced;
  }

  /** A call of the model keeps what was given before traceable. */
  lemma CallKeepsInv(s: State, c: Call)
    requires Inv(s) && !s.phase.Publishing?
    ensures Inv(s.(calls := s.calls + [c]))
  {
    hide OwnAnswer, RoundOk, Aligned, Unfinished, Serves, DeliveredOnce, QueueOk, Placed, RoundCovered;
    var t := s.(calls := s.calls + [c]);
    forall id, r | Fair(s, id, r) ensures Fair(t, id, r) { TracedStays(s.calls, c, id, r); }
    CallRest(s, c);
  }

  lemma TracedStays(calls: seq<Call>, c: Call, id: Id, r: Response)
    requires Traced(calls, id, r)
    ensures Traced(calls + [c], id, r)
  {
    hide Serves;
    if r.Answer? {
      var d, i: nat :| d in calls && i < |d.info| && d.info[i].id == id && Serves(d.info, i, d.texts, r);
      assert d in calls + [c];
    }
  }

  lemma CallRest(s: State, c: Call)
    requires DeliveredOnce(s) && Placed(s) && QueueOk(s) && RoundOk(s) && RoundCovered(s)
    ensures var t := s.(calls := s.calls + [c]);
            DeliveredOnce(t) && Placed(t) && QueueOk(t) && RoundOk(t) && RoundCovered(t)
  {
    var t := s.(calls := s.calls + [c]);
    assert forall id :: Delivered(s, id) ==> Delivered(t, id);
  }

  lemma CloseKeepsInv(s: State)
    requires Inv(s) && s.phase.Collecting?
    ensures Inv(s.(phase := Preparing(s.phase.batch, [], [])))
  {
    PhaseStepKeepsInv(s, Preparing(s.phase.batch, [], []));
  }

  lemma AcceptKeepsInv(s: State)
    requires Inv(s) && s.phase.Preparing? && s.phase.todo != [] && PromptsOf(s.phase.todo[0].req).Some?
    ensures Inv(PrepareOne(s))
  {
    hide OwnAnswers, DeliveredOnce, Placed, QueueOk, RoundCovered, RoundOk, Aligned, Unfinished;
    AcceptRound(s);
    AcceptAligned(s);
    forall id | Unfinished(s.phase, id) ensures Unfinished(PrepareOne(s).phase, id) {
      AcceptUnfinished(s, id);
    }
    PhaseStepKeepsInv(s, PrepareOne(s).phase);
  }

  lemma AcceptRound(s: State)
    requires RoundOk(s) && s.phase.Preparing? && s.phase.todo != [] && PromptsOf(s.phase.todo[0].req).Some?
    ensures RoundOk(PrepareOne(s))
  {
  }

  lemma AcceptAligned(s: State)
    requires Aligned(s.phase) && s.phase.Preparing? && s.phase.todo != [] && PromptsOf(s.phase.todo[0].req).Some?
    ensures Aligned(PrepareOne(s).phase)
  {
    var info := PrepareOne(s).phase.info;
    assert info[..|info| - 1] == s.phase.info;
  }

  lemma AcceptUnfinished(s: State, id: Id)
    requires s.phase.Preparing? && s.phase.todo != [] && PromptsOf(s.phase.todo[0].req).Some? && Unfinished(s.phase, id)
    ensures Unfinished(PrepareOne(s).phase, id)
  {
    var p, phase := s.phase, PrepareOne(s).phase;
    if i :| 0 <= i < |p.todo| && p.todo[i].id == id {
      if i == 0 { assert phase.info[|p.info|].id == id; } else { assert phase.todo[i - 1].id == id; }
    } else {
      var i :| 0 <= i < |p.info| && p.info[i].id == id;
      assert phase.info[i].id == id;
    }
  }

  /** A step that answers one request of the round. */
  lemma PostKeepsInv(s: State, id: Id, r: Response, phase: Phase)
    requires Inv(s) && Fair(s, id, r)
    requires s.place[id] == InRound || s.place[id] == Answered
    requires RoundOk(Post(s, id, r, phase)) && Aligned(phase) && Called(Post(s, id, r, phase))
    requires forall x :: x != id && Unfinished(s.phase, x) ==> Unfinished(phase, x)
    ensures Inv(Post(s, id, r, phase))
  {
    hide RoundOk, Aligned, OwnAnswer, Unfinished, Called, Traced;
  }

  lemma RejectKeepsInv(s: State)
    requires Inv(s) && s.phase.Preparing? && s.phase.todo != [] && PromptsOf(s.phase.todo[0].req).None?
    ensures Inv(PrepareOne(s))
  {
    var p, id := s.phase, s.phase.todo[0].id;
    var phase := Preparing(p.todo[1..], p.prompts, p.info);
    forall x | x != id && Unfinished(p, x) ensures Unfinished(phase, x) {
      if i :| 0 <= i < |p.todo| && p.todo[i].id == x { assert phase.todo[i - 1].id == x; }
    }
    RejectRound(s, phase);
    hide OwnAnswers, DeliveredOnce, QueueOk, RoundCovered, RoundOk, Aligned, Unfinished;
    PostKeepsInv(s, id, Error(InvalidRequest), phase);
  }

  lemma RejectRound(s: State, phase: Phase)
    requires Inv(s) && s.phase.Preparing? && s.phase.todo != [] && PromptsOf(s.phase.todo[0].req).None?
    requires phase == Preparing(s.phase.todo[1..], s.phase.prompts, s.phase.info)
    ensures var id := s.phase.todo[0].id;
            && id in s.requests && id in s.place && s.place[id] == InRound
            && RoundOk(Post(s, id, Error(InvalidRequest), phase)) && Aligned(phase)
  {
    hide OwnAnswers, DeliveredOnce, QueueOk, RoundCovered, Placed;
  }

  /** The batch has no prompt exactly when each accepted request has none. */
  lemma {:induction false} NoPromptIff(info: seq<Entry>)
    requires forall i :: 0 <= i < |info| ==> PromptsOf(info[i].req).Some?
    ensures AllPrompts(info) == [] <==> forall e :: e in info ==> PromptsOf(e.req) == Some([])
  {
    if info != [] {
      NoPromptIff(info[..|info| - 1]);
      assert forall e :: e in info <==> e in info[..|info| - 1] || e == info[|info| - 1];
    }
  }

  /** The requests still in the round are the entries, when no item is left. */
  lemma MentionedIff(s: State)
    requires RoundOk(s) && RoundCovered(s) && s.phase.Preparing? && s.phase.todo == []
    ensures forall id :: Mentions(s.phase.info, id) <==> id in s.place && s.place[id] == InRound
    ensures forall id :: Mentions(s.phase.info, id) ==>
              exists e :: e in s.phase.info && e.id == id && id in s.requests && s.requests[id] == e.req
  {
    var info := s.phase.info;
    forall id | id in s.place && s.place[id] == InRound ensures Mentions(info, id) {
      assert Unfinished(s.phase, id);
      var i :| 0 <= i < |info| && info[i].id == id;
      assert info[i] in info;
    }
    forall id | Mentions(info, id)
      ensures id in s.place && s.place[id] == InRound
      ensures exists e :: e in info && e.id == id && id in s.requests && s.requests[id] == e.req
    {
      var e :| e in info && e.id == id;
      var k :| 0 <= k < |info| && info[k] == e;
    }
  }

  lemma SkipKeepsInv(s: State)
    requires Inv(s) && s.phase.Preparing? && s.phase.todo == [] && s.phase.prompts == []
    ensures Inv(BroadcastOne(s, false))
  {
    hide AllPrompts, Mentions, OwnAnswers, DeliveredOnce, Placed, QueueOk, RoundCovered, RoundOk;
    SkipAnswers(s);
    SkipPlaces(s);
    NothingHeld(BroadcastOne(s, false));
  }

  lemma SkipAnswers(s: State)
    requires OwnAnswers(s) && DeliveredOnce(s) && s.phase.Preparing? && s.phase.prompts == []
    ensures OwnAnswers(BroadcastOne(s, false)) && DeliveredOnce(BroadcastOne(s, false))
  {
    hide OwnAnswer, Mentions;
    var s' := BroadcastOne(s, false);
    forall id | Delivered(s, id) ensures Delivered(s', id) {
      var k :| 0 <= k < |s.log| && s.log[k].0 == id;
      assert s'.log[k].0 == id;
    }
  }

  lemma EntriesReadable(s: State)
    requires RoundOk(s) && s.phase.Preparing?
    ensures forall i :: 0 <= i < |s.phase.info| ==> PromptsOf(s.phase.info[i].req).Some?
  {
  }

  lemma SkipPlaces(s: State)
    requires Inv(s) && s.phase.Preparing? && s.phase.todo == [] && s.phase.prompts == []
    ensures Placed(BroadcastOne(s, false)) && QueueOk(BroadcastOne(s, false)) && RoundCovered(BroadcastOne(s, false))
  {
    hide AllPrompts, Mentions, OwnAnswers, DeliveredOnce, RoundOk;
    EntriesReadable(s);
    NoPromptIff(s.phase.info);
    MentionedIff(s);
    var s' := BroadcastOne(s, false);
    assert QueueOk(s') by { hide Placed, RoundCovered, Unfinished; }
    assert RoundCovered(s') by { hide Placed, QueueOk; }
    assert Placed(s') by { hide QueueOk, RoundCovered; }
    hide QueueOk, RoundCovered, Placed;
  }

  lemma NothingHeld(s: State)
    requires s.phase == Collecting([])
    ensures RoundOk(s)
  {
  }

  lemma BroadcastKeepsInv(s: State, tooLarge: bool)
    requires Inv(s) && s.phase.Preparing? && s.phase.todo == []
    ensures Inv(BroadcastOne(s, tooLarge))
  {
    if s.phase.prompts == [] { SkipKeepsInv(s); } else { PhaseStepKeepsInv(s, BroadcastOne(s, tooLarge).phase); }
  }

  lemma GenerateKeepsInv(s: State, texts: Option<seq<string>>)
    requires Inv(s) && LoopStep(s, Generate(texts), 0).Some?
    ensures Inv(LoopStep(s, Generate(texts), 0).value)
  {
    assert s.phase.info[..0] == [];
    var phase := LoopStep(s, Generate(texts), 0).value.phase;
    if texts.Some? {
      var c := Call(s.phase.info, texts.value);
      CallKeepsInv(s, c);
      hide OwnAnswers, DeliveredOnce, Placed, QueueOk;
      PhaseStepKeepsInv(s.(calls := s.calls + [c]), phase);
    } else {
      PhaseStepKeepsInv(s, phase);
    }
  }

  lemma PublishedRound(s: State)
    requires RoundOk(s) && s.phase.Publishing? && s.phase.done < |s.phase.info| && CanPublish(s.phase)
    ensures var s', id := PublishOne(s), s.phase.info[s.phase.done].id;
            RoundOk(s') && forall x :: x != id && Unfinished(s.phase, x) ==> Unfinished(s'.phase, x)
  {
    hide CreateResponse;
  }

  lemma PublishedTraced(s: State)
    requires RoundOk(s) && Aligned(s.phase) && Called(s) && s.phase.Publishing? && s.phase.done < |s.phase.info|
    ensures CanPublish(s.phase)
    ensures var p := s.phase;
            var e := p.info[p.done];
            Traced(s.calls, e.id, CreateResponse(e.req, p.completions[p.at..p.at + e.count]))
  {
    OwnSlice(s.phase);
    hide AllPrompts, OwnAnswer, CreateResponse, Serves;
    var c := s.calls[|s.calls| - 1];
    assert c in s.calls && c.texts == Texts(s.phase.completions);
  }

  lemma PublishFacts(s: State) returns (id: Id, r: Response, phase: Phase)
    requires RoundOk(s) && Aligned(s.phase) && Called(s) && s.phase.Publishing? && s.phase.done < |s.phase.info|
    ensures CanPublish(s.phase) && PublishOne(s) == Post(s, id, r, phase) && id == s.phase.info[s.phase.done].id
    ensures Fair(s, id, r) && id in s.place && s.place[id] == InRound && Aligned(phase) && Called(PublishOne(s))
  {
    OwnSlice(s.phase);
    PublishedTraced(s);
    hide AllPrompts, OwnAnswer, CreateResponse, Serves, Traced;
    var p := s.phase;
    var e := p.info[p.done];
    id, r, phase := e.id, CreateResponse(e.req, p.completions[p.at..p.at + e.count]), PublishOne(s).phase;
  }

  lemma PublishKeepsInv(s: State)
    requires Inv(s) && s.phase.Publishing? && s.phase.done < |s.phase.info|
    ensures CanPublish(s.phase) && Inv(PublishOne(s))
  {
    var id, r, phase := PublishFacts(s);
    PublishedRound(s);
    hide OwnAnswer, PublishOne, Placed, QueueOk, RoundCovered, OwnAnswers, DeliveredOnce, Unfinished, RoundOk, Aligned;
    hide Called, Traced;
    PostKeepsInv(s, id, r, phase);
  }

  lemma RaiseKeepsInv(s: State)
    requires Inv(s) && s.phase.Publishing?
    ensures Inv(s.(phase := Failing(s.phase.info, 0, InferenceFailed)))
  {
    PhaseStepKeepsInv(s, Failing(s.phase.info, 0, InferenceFailed));
  }

  lemma FailKeepsInv(s: State)
    requires Inv(s) && s.phase.Failing? && s.phase.done < |s.phase.info|
    ensures var p := s.phase; Inv(Post(s, p.info[p.done].id, Error(p.reason), Failing(p.info, p.done + 1, p.reason)))
  {
    var p := s.phase;
    PostKeepsInv(s, p.info[p.done].id, Error(p.reason), Failing(p.info, p.done + 1, p.reason));
  }

  lemma RoundEndKeepsInv(s: State)
    requires Inv(s) && (s.phase.Publishing? || s.phase.Failing?) && s.phase.done >= |s.phase.info|
    ensures Inv(s.(phase := Collecting([])))
  {
    PhaseStepKeepsInv(s, Collecting([]));
  }

  lemma NextKeepsInv(s: State, a: Action, batchSize: nat)
    requires Inv(s) && Next(s, a, batchSize).Some?
    ensures Inv(Next(s, a, batchSize).value)
  {
    hide Inv;
    match a
    case Submit(_, _) => ClientStepKeepsInv(s, a);
    case Poll(_) => ClientStepKeepsInv(s, a);
    case Timeout(_) => ClientStepKeepsInv(s, a);
    case Take => TakeKeepsInv(s, batchSize);
    case Close => CloseKeepsInv(s);
    case Prepare => if PromptsOf(s.phase.todo[0].req).Some? { AcceptKeepsInv(s); } else { RejectKeepsInv(s); }
    case Broadcast(tooLarge) => BroadcastKeepsInv(s, tooLarge);
    case Generate(texts) => GenerateKeepsInv(s, texts);
    case Publish(raises) =>
      if s.phase.done >= |s.phase.info| { RoundEndKeepsInv(s); }
      else if raises { RaiseKeepsInv(s); }
      else { PublishKeepsInv(s); }
    case Fail => if s.phase.done >= |s.phase.info| { RoundEndKeepsInv(s); } else { FailKeepsInv(s); }
  }

  // ---- What every run guarantees ----

  lemma {:induction false} RunKeepsInv(s: State, actions: seq<Action>, batchSize: nat)
    requires Inv(s) && Run(s, actions, batchSize).Some?
    ensures Inv(Run(s, actions, batchSize).value)
    decreases |actions|
  {
    hide Inv, Next;
    if actions != [] {
      NextKeepsInv(s, actions[0], batchSize);
      RunKeepsInv(Next(s, actions[0], batchSize).value, actions[1..], batchSize);
    }
  }

  lemma {:induction false} RunLast(s: State, actions: seq<Action>, batchSize: nat)
    requires actions != [] && Run(s, actions, batchSize).Some?
    ensures var front := Run(s, actions[..|actions| - 1], batchSize);
            front.Some? && Next(front.value, actions[|actions| - 1], batchSize) == Run(s, actions, batchSize)
    decreases |actions|
  {
    hide Next;
    if |actions| > 1 {
      RunLast(Next(s, actions[0], batchSize).value, actions[1..], batchSize);
      assert actions[..|actions| - 1][1..] == actions[1..][..|actions| - 2];
    } else {
      assert actions[1..] == [] && actions[..0] == [];
      assert Run(Next(s, actions[0], batchSize).value, [], batchSize) == Next(s, actions[0], batchSize);
    }
  }

  /** Action m of the run is this call of the model: it serves the requests accepted in that round with those texts. */
  ghost predicate Made(actions: seq<Action>, batchSize: nat, m: nat, c: Call) {
    && m < |actions| && actions[m] == Generate(Some(c.texts))
    && Run(INIT, actions[..m], batchSize).Some?
    && Run(INIT, actions[..m], batchSize).value.phase == Generating(AllPrompts(c.info), c.info)
  }

  lemma {:induction false} CallsMade(actions: seq<Action>, batchSize: nat)
    requires Run(INIT, actions, batchSize).Some?
    ensures forall c :: c in Run(INIT, actions, batchSize).value.calls ==> exists m: nat :: Made(actions, batchSize, m, c)
    decreases |actions|
  {
    hide AllPrompts, Run;
    if actions == [] {
      NoCalls(batchSize);
    } else {
      var n := |actions| - 1;
      RunLast(INIT, actions, batchSize);
      CallsMade(actions[..n], batchSize);
      RunKeepsInv(INIT, actions[..n], batchSize);
      var s, t := Run(INIT, actions[..n], batchSize).value, Run(INIT, actions, batchSize).value;
      NewCall(s, actions[n], batchSize);
      forall c | c in t.calls ensures exists m: nat :: Made(actions, batchSize, m, c) {
        if c in s.calls {
          var m: nat :| Made(actions[..n], batchSize, m, c);
          assert actions[..n][..m] == actions[..m];
          assert Made(actions, batchSize, m, c);
        } else {
          assert Made(actions, batchSize, n, c);
        }
      }
    }
  }

  lemma NoCalls(batchSize: nat)
    ensures Run(INIT, [], batchSize) == Some(INIT) && INIT.calls == []
  {
  }

  lemma NewCall(s: State, a: Action, batchSize: nat)
    requires Inv(s) && Next(s, a, batchSize).Some?
    ensures forall c :: c in Next(s, a, batchSize).value.calls && c !in s.calls ==>
              a == Generate(Some(c.texts)) && s.phase == Generating(AllPrompts(c.info), c.info)
  {
    hide OwnAnswers, DeliveredOnce, Placed, QueueOk, RoundOk, RoundCovered, AllPrompts, CreateResponse, CanPublish, Mentions;
    hide Zip;
  }

  /** The answer was made from the texts of one call of the model, at the places of the receiver's own prompts. */
  ghost predicate Generated(actions: seq<Action>, batchSize: nat, id: Id, r: Response) {
    exists m: nat, c, i: nat ::
      Made(actions, batchSize, m, c) && i < |c.info| && c.info[i].id == id && Serves(c.info, i, c.texts, r)
  }

  /** Over every run: each delivery is an error, or holds one completion of each of the receiver's own prompts in order,
      with the texts that one call of the model gave for them; and nobody receives twice. */
  lemma DeliveriesSafe(actions: seq<Action>, batchSize: nat)
    requires Run(INIT, actions, batchSize).Some?
    ensures var s := Run(INIT, actions, batchSize).value;
            && (forall k :: 0 <= k < |s.log| ==>
                 && s.log[k].0 in s.requests && OwnAnswer(s.requests[s.log[k].0], s.log[k].1)
                 && (s.log[k].1.Answer? ==> Generated(actions, batchSize, s.log[k].0, s.log[k].1)))
            && forall i, j :: 0 <= i < j < |s.log| ==> s.log[i].0 != s.log[j].0
  {
    RunKeepsInv(INIT, actions, batchSize);
    CallsMade(actions, batchSize);
    hide OwnAnswer, Run, Made, Serves;
    var s := Run(INIT, actions, batchSize).value;
    forall k | 0 <= k < |s.log| && s.log[k].1.Answer? ensures Generated(actions, batchSize, s.log[k].0, s.log[k].1) {
      assert Fair(s, s.log[k].0, s.log[k].1);
      var c, i: nat :| c in s.calls && i < |c.info| && c.info[i].id == s.log[k].0 && Serves(c.info, i, c.texts, s.log[k].1);
      var m: nat :| Made(actions, batchSize, m, c);
    }
  }

  /** What has become of a request that the loop is done with: its response is there or was delivered, its client gave
      up, or it was lost for having no prompts. */
  ghost predicate Concluded(s: State, id: Id) {
    || id in s.responses || Delivered(s, id) || id in s.timedOut
    || (id in s.place && s.place[id] == Lost && id in s.requests && PromptsOf(s.requests[id]) == Some([]))
  }

  /** Between rounds every request is queued or concluded. */
  lemma BetweenRounds(s: State)
    requires Inv(s) && s.phase == Collecting([])
    ensures forall id :: id in s.requests ==> (exists i :: 0 <= i < |s.queue| && s.queue[i].id == id) || Concluded(s, id)
  {
    hide OwnAnswers, RoundOk, Aligned, Delivered;
    forall id | id in s.requests ensures s.place[id] != InRound {
      assert s.place[id] == InRound ==> Unfinished(s.phase, id);
    }
  }

  /** A round drops its accepted requests without an answer exactly when none of them has a prompt. */
  lemma BroadcastLosesIff(s: State, tooLarge: bool)
    requires Inv(s) && s.phase.Preparing? && s.phase.todo == []
    ensures (exists id :: id in s.place && s.place[id] != Lost && BroadcastOne(s, tooLarge).place[id] == Lost) <==>
            s.phase.info != [] && forall e :: e in s.phase.info ==> PromptsOf(e.req) == Some([])
  {
    var info := s.phase.info;
    NoPromptIff(info);
    if s.phase.prompts == [] && info != [] {
      assert info[0] in info && Mentions(info, info[0].id);
      assert BroadcastOne(s, tooLarge).place[info[0].id] == Lost;
    }
  }

  /** A lost request never gets a response. */
  lemma LostForever(s: State, a: Action, batchSize: nat, id: Id)
    requires Inv(s) && id in s.place && s.place[id] == Lost && Next(s, a, batchSize).Some?
    ensures id !in s.responses && Next(s, a, batchSize).value.place[id] == Lost
  {
    hide OwnAnswers, DeliveredOnce, RoundCovered, Aligned;
  }

  lemma LossExample()
    ensures var run := [Submit(0, CompletionRequest(Some([]))), Take, Close, Prepare, Broadcast(false)];
            Run(INIT, run, 1).Some? && Run(INIT, run, 1).value.phase == Collecting([])
            && Run(INIT, run, 1).value.place == map[0 := Lost]
  {
  }

  /** Steps the current round can still take. */
  function Work(phase: Phase): nat {
    match phase
    case Collecting(_) => 0
    case Preparing(todo, _, info) => 4 + 2 * |info| + 3 * |todo|
    case Generating(_, info) => 3 + 2 * |info|
    case Publishing(_, info, done, _) => 2 + |info| + if done <= |info| then |info| - done else 0
    case Failing(info, done, _) => 1 + if done <= |info| then |info| - done else 0
  }

  /** Once a batch is closed no step but the loop's own moves it, each of those brings the round nearer its end, and one
      is always possible: every collected request is eventually answered, or lost as above. */
  lemma RoundProgress(s: State, a: Action, batchSize: nat)
    requires Inv(s) && !s.phase.Collecting? && Next(s, a, batchSize).Some?
    ensures var s' := Next(s, a, batchSize).value;
            if a.Submit? || a.Poll? || a.Timeout? then s'.phase == s.phase else Work(s'.phase) < Work(s.phase)
  {
    hide OwnAnswers, DeliveredOnce, Placed, QueueOk, RoundCovered, Aligned, ItemsOk, EntriesOk;
    hide CreateResponse, Mentions, CanPublish;
  }

  predicate ByClient(a: Action) {
    a.Submit? || a.Poll? || a.Timeout?
  }

  /** The next step of the loop when nothing fails. */
  function NormalStep(phase: Phase): Action
    requires !phase.Collecting?
  {
    match phase
    case Preparing(todo, _, _) => if todo != [] then Prepare else Broadcast(false)
    case Generating(prompts, _) => Generate(Some(seq(|prompts|, _ => "")))
    case Publishing(_, _, _, _) => Publish(false)
    case Failing(_, _, _) => Fail
  }

  /** In a round the loop's next step is possible, without anything failing. */
  lemma RoundNotStuck(s: State, batchSize: nat)
    requires Inv(s) && !s.phase.Collecting?
    ensures var a := NormalStep(s.phase);
            && !ByClient(a) && (a.Generate? ==> a.texts.Some?) && (a.Publish? ==> !a.raises)
            && Next(s, a, batchSize).Some?
  {
    if s.phase.Publishing? && s.phase.done < |s.phase.info| { NextServed(s); }
  }

  function LoopSteps(actions: seq<Action>): nat {
    if actions == [] then 0 else LoopSteps(actions[1..]) + if ByClient(actions[0]) then 0 else 1
  }

  /** The first k actions bring the round to its end. */
  ghost predicate RoundOver(s: State, actions: seq<Action>, batchSize: nat, k: nat) {
    && k <= |actions| && Run(s, actions[..k], batchSize).Some?
    && Run(s, actions[..k], batchSize).value.phase == Collecting([])
  }

  /** From any reachable state in a round, every run with as many loop steps as there is work left, whatever clients do
      in between, passes through the end of the round. */
  lemma {:induction false} RoundEnds(s: State, actions: seq<Action>, batchSize: nat) returns (k: nat)
    requires Inv(s) && !s.phase.Collecting? && Run(s, actions, batchSize).Some?
    requires LoopSteps(actions) >= Work(s.phase)
    ensures RoundOver(s, actions, batchSize, k)
    decreases |actions|
  {
    hide Inv, Next;
    WorkLeft(s.phase);
    var a := actions[0];
    var t := Next(s, a, batchSize).value;
    NextKeepsInv(s, a, batchSize);
    RoundProgress(s, a, batchSize);
    if t.phase.Collecting? {
      RoundLeaves(s, a, batchSize);
      k := 1;
      assert actions[..1] == [a] && [a][1..] == [];
      assert Run(t, [], batchSize) == Some(t);
    } else {
      var j := RoundEnds(t, actions[1..], batchSize);
      k := j + 1;
      assert actions[..k][1..] == actions[1..][..j] && actions[..k][0] == a;
    }
  }

  lemma WorkLeft(phase: Phase)
    requires !phase.Collecting?
    ensures Work(phase) > 0
  {
  }

  /** A round ends with nothing collected. */
  lemma RoundLeaves(s: State, a: Action, batchSize: nat)
    requires !s.phase.Collecting? && Next(s, a, batchSize).Some? && Next(s, a, batchSize).value.phase.Collecting?
    ensures Next(s, a, batchSize).value.phase == Collecting([])
  {
    hide CreateResponse, Mentions, CanPublish;
  }

  /** A request that has left the queue never comes back. */
  lemma NotQueuedAgain(s: State, a: Action, batchSize: nat, id: Id)
    requires Inv(s) && Next(s, a, batchSize).Some? && id in s.place && s.place[id] != Queued
    ensures id in Next(s, a, batchSize).value.place && Next(s, a, batchSize).value.place[id] != Queued
  {
    hide OwnAnswers, DeliveredOnce, RoundCovered, Aligned, CreateResponse, CanPublish, Mentions;
  }

  lemma {:induction false} NeverQueuedAgain(s: State, actions: seq<Action>, batchSize: nat, id: Id)
    requires Inv(s) && Run(s, actions, batchSize).Some? && id in s.place && s.place[id] != Queued
    ensures var t := Run(s, actions, batchSize).value; id in t.place && t.place[id] != Queued
    decreases |actions|
  {
    hide Inv, Next;
    if actions != [] {
      NextKeepsInv(s, actions[0], batchSize);
      NotQueuedAgain(s, actions[0], batchSize, id);
      NeverQueuedAgain(Next(s, actions[0], batchSize).value, actions[1..], batchSize, id);
    }
  }

  lemma {:induction false} RunPrefix(s: State, actions: seq<Action>, batchSize: nat, k: nat)
    requires k <= |actions| && Run(s, actions, batchSize).Some?
    ensures Run(s, actions[..k], batchSize).Some?
    decreases k
  {
    hide Next;
    if k > 0 {
      RunPrefix(Next(s, actions[0], batchSize).value, actions[1..], batchSize, k - 1);
      assert actions[..k][1..] == actions[1..][..k - 1];
    }
  }

  /** Every collected request is concluded: from any reachable state in a round, every run with enough loop steps passes
      a state in which each request of the round has its response stored or delivered, was given up, or was lost for
      having no prompts. */
  lemma CollectedAreConcluded(s: State, actions: seq<Action>, batchSize: nat) returns (k: nat)
    requires Inv(s) && !s.phase.Collecting? && Run(s, actions, batchSize).Some?
    requires LoopSteps(actions) >= Work(s.phase)
    ensures RoundOver(s, actions, batchSize, k)
    ensures forall id :: id in s.place && s.place[id] == InRound ==> Concluded(Run(s, actions[..k], batchSize).value, id)
  {
    k := RoundEnds(s, actions, batchSize);
    var t := Run(s, actions[..k], batchSize).value;
    RunKeepsInv(s, actions[..k], batchSize);
    forall id | id in s.place && s.place[id] == InRound ensures Concluded(t, id) {
      NeverQueuedAgain(s, actions[..k], batchSize, id);
      LeftQueueConcluded(t, id);
    }
  }

  lemma LeftQueueConcluded(s: State, id: Id)
    requires Inv(s) && s.phase == Collecting([]) && id in s.place && s.place[id] != Queued
    ensures Concluded(s, id)
  {
    hide OwnAnswers, RoundOk, Aligned, Delivered;
    assert s.place[id] == InRound ==> Unfinished(s.phase, id);
  }

  // ---- Rank 0's loop on its own mutable state ----

  ghost predicate AllFailed(responses: map<Id, Response>, info: seq<Entry>, reason: Reason) {
    forall i :: 0 <= i < |info| ==> info[i].id in responses && responses[info[i].id] == Error(reason)
  }

  /** Each of the first k entries has the answer made of its own texts. */
  ghost predicate Served(responses: map<Id, Response>, info: seq<Entry>, k: nat, texts: seq<string>)
    requires k <= |info|
  {
    forall i :: 0 <= i < k ==> info[i].id in responses && Serves(info, i, texts, responses[info[i].id])
  }

  ghost predicate SameOthers(before: map<Id, Response>, after: map<Id, Response>, info: seq<Entry>) {
    forall id :: (forall i :: 0 <= i < |info| ==> info[i].id != id) ==>
      (id in after <==> id in before) && (id in before ==> after[id] == before[id])
  }

  /** The next response is an answer of its own request, and its id is new in the round. */
  lemma NextServed(s: State)
    requires Inv(s) && s.phase.Publishing? && s.phase.done < |s.phase.info|
    ensures CanPublish(s.phase)
    ensures var p := s.phase;
            var e := p.info[p.done];
            var r := CreateResponse(e.req, p.completions[p.at..p.at + e.count]);
            Serves(p.info, p.done, Texts(p.completions), r) && forall j :: 0 <= j < p.done ==> p.info[j].id != e.id
  {
    hide OwnAnswers, DeliveredOnce, Placed, QueueOk, RoundCovered, OwnAnswer, AllPrompts, Serves;
    OwnSlice(s.phase);
  }

  lemma ServedStep(responses: map<Id, Response>, info: seq<Entry>, k: nat, texts: seq<string>, r: Response)
    requires k < |info| && Served(responses, info, k, texts) && Serves(info, k, texts, r)
    requires forall j :: 0 <= j < k ==> info[j].id != info[k].id
    ensures Served(responses[info[k].id := r], info, k + 1, texts)
  {
    hide Serves;
  }

  /** The rows of the request map: one for each readable request, in order. */
  function Accepted(items: seq<Item>): seq<Entry> {
    if items == [] then []
    else
      var item := items[|items| - 1];
      var ps := PromptsOf(item.req);
      Accepted(items[..|items| - 1]) + if ps.Some? then [Entry(item.id, item.req, |ps.value|)] else []
  }

  lemma AcceptedStep(items: seq<Item>, k: nat)
    requires k < |items|
    ensures var ps := PromptsOf(items[k].req);
            Accepted(items[..k + 1]) ==
            Accepted(items[..k]) + if ps.Some? then [Entry(items[k].id, items[k].req, |ps.value|)] else []
  {
    assert items[..k + 1][..k] == items[..k];
  }

  ghost predicate DistinctIds(items: seq<Item>) {
    forall i, j :: 0 <= i < j < |items| ==> items[i].id != items[j].id
  }

  ghost predicate AllRejected(responses: map<Id, Response>, items: seq<Item>) {
    forall i :: 0 <= i < |items| && PromptsOf(items[i].req).None? ==>
      items[i].id in responses && responses[items[i].id] == Error(InvalidRequest)
  }

  lemma {:induction false} AcceptedFrom(items: seq<Item>, e: Entry)
    requires e in Accepted(items)
    ensures exists i :: 0 <= i < |items| && items[i].id == e.id && PromptsOf(items[i].req).Some?
  {
    var front := items[..|items| - 1];
    if e in Accepted(front) {
      AcceptedFrom(front, e);
      var i :| 0 <= i < |front| && front[i].id == e.id && PromptsOf(front[i].req).Some?;
      assert items[i] == front[i];
    } else {
      assert e.id == items[|items| - 1].id;
    }
  }

  /** A readable request stands in the request map behind those before it. */
  lemma {:induction false} AcceptedAt(items: seq<Item>, i: nat)
    requires i < |items| && PromptsOf(items[i].req).Some?
    ensures var all, at := Accepted(items), |Accepted(items[..i])|;
            at < |all| && all[..at] == Accepted(items[..i]) && all[at] ==
              Entry(items[i].id, items[i].req, |PromptsOf(items[i].req).value|)
  {
    var front := items[..|items| - 1];
    if i < |front| {
      AcceptedAt(front, i);
      assert front[..i] == items[..i];
      assert Accepted(items)[..|Accepted(items[..i])|] == Accepted(front)[..|Accepted(items[..i])|];
    }
  }

  lemma NoneAccepted()
    ensures Accepted([]) == []
  {
  }

  lemma BatchDistinct(s: State)
    requires Inv(s) && s.phase.Collecting?
    ensures DistinctIds(s.phase.batch)
  {
    hide OwnAnswers, DeliveredOnce, Placed, QueueOk, RoundCovered;
  }

  lemma PromptsAligned(s: State)
    requires Inv(s) && s.phase.Preparing?
    ensures s.phase.prompts == AllPrompts(s.phase.info)
  {
    hide OwnAnswers, DeliveredOnce, Placed, QueueOk, RoundCovered, RoundOk;
  }

  lemma RejectedStep(responses: map<Id, Response>, items: seq<Item>, k: nat)
    requires k < |items| && DistinctIds(items) && AllRejected(responses, items[..k])
    ensures PromptsOf(items[k].req).Some? ==> AllRejected(responses, items[..k + 1])
    ensures AllRejected(responses[items[k].id := Error(InvalidRequest)], items[..k + 1])
  {
    assert forall i :: 0 <= i < k ==> items[..k + 1][i] == items[..k][i];
  }

  /** Failing the accepted requests leaves the answers of the rejected ones. */
  lemma RejectedStay(before: map<Id, Response>, after: map<Id, Response>, items: seq<Item>)
    requires DistinctIds(items) && AllRejected(before, items) && SameOthers(before, after, Accepted(items))
    ensures AllRejected(after, items)
  {
    var info := Accepted(items);
    forall i | 0 <= i < |items| && PromptsOf(items[i].req).None?
      ensures items[i].id in after && after[items[i].id] == Error(InvalidRequest)
    {
      forall j | 0 <= j < |info| ensures info[j].id != items[i].id {
        AcceptedFrom(items, info[j]);
      }
    }
  }

  /** Whether generation and the building of all responses succeed. */
  predicate Succeeds(prompts: seq<Prompt>, info: seq<Entry>, texts: Option<seq<string>>, raiseAt: Option<nat>) {
    texts.Some? && |texts.value| == |prompts| && !(raiseAt.Some? && raiseAt.value < |info|)
  }

  /** What one turn leaves for the i-th request it took: an error when it cannot be read; else nothing when no request
      taken has a prompt; else the size error, the inference error, or the answer made of the texts behind those of the
      prompts before its own. */
  ghost predicate Outcome(responses: map<Id, Response>, taken: seq<Item>, i: nat, tooLarge: bool,
                          texts: Option<seq<string>>, raiseAt: Option<nat>)
    requires i < |taken|
  {
    var id, own, prompts := taken[i].id, PromptsOf(taken[i].req), AllPrompts(Accepted(taken));
    if own.Some? && prompts == [] then id !in responses
    else
      && id in responses
      && var r := responses[id];
         if own.None? then r == Error(InvalidRequest)
         else if tooLarge then r == Error(PayloadTooLarge)
         else if !Succeeds(prompts, Accepted(taken), texts, raiseAt) then r == Error(InferenceFailed)
         else
           var at := |AllPrompts(Accepted(taken[..i]))|;
           && r.Answer? && |r.choices| == |own.value| && at + |own.value| <= |texts.value|
           && forall j :: 0 <= j < |own.value| ==> r.choices[j] == Completion(own.value[j], texts.value[at + j])
  }

  ghost predicate Outcomes(responses: map<Id, Response>, taken: seq<Item>, tooLarge: bool, texts: Option<seq<string>>,
                           raiseAt: Option<nat>) {
    forall i :: 0 <= i < |taken| ==> Outcome(responses, taken, i, tooLarge, texts, raiseAt)
  }

  /** The requests taken that can be read have no response. */
  ghost predicate Unanswered(responses: map<Id, Response>, taken: seq<Item>) {
    forall i :: 0 <= i < |taken| && PromptsOf(taken[i].req).Some? ==> taken[i].id !in responses
  }

  lemma OutcomesFrom(responses: map<Id, Response>, taken: seq<Item>, tooLarge: bool, texts: Option<seq<string>>,
                     raiseAt: Option<nat>)
    requires AllRejected(responses, taken)
    requires var info := Accepted(taken);
             var prompts := AllPrompts(info);
             if prompts == [] then Unanswered(responses, taken)
             else if tooLarge then AllFailed(responses, info, PayloadTooLarge)
             else if Succeeds(prompts, info, texts, raiseAt) then Served(responses, info, |info|, texts.value)
             else AllFailed(responses, info, InferenceFailed)
    ensures Outcomes(responses, taken, tooLarge, texts, raiseAt)
  {
    hide AllPrompts, Accepted;
    forall i | 0 <= i < |taken| ensures Outcome(responses, taken, i, tooLarge, texts, raiseAt) {
      if PromptsOf(taken[i].req).Some? { AcceptedAt(taken, i); }
    }
  }

  /** Only requests taken get a response. */
  ghost predicate SameOutside(before: map<Id, Response>, after: map<Id, Response>, taken: seq<Item>) {
    forall id :: (forall i :: 0 <= i < |taken| ==> taken[i].id != id) ==>
      (id in after <==> id in before) && (id in before ==> after[id] == before[id])
  }

  /** Only unreadable requests got a response. */
  ghost predicate OnlyRejected(before: map<Id, Response>, after: map<Id, Response>, items: seq<Item>) {
    forall id :: (forall i :: 0 <= i < |items| && PromptsOf(items[i].req).None? ==> items[i].id != id) ==>
      (id in after <==> id in before) && (id in before ==> after[id] == before[id])
  }

  lemma OutsideFrom(a: map<Id, Response>, b: map<Id, Response>, c: map<Id, Response>, taken: seq<Item>)
    requires OnlyRejected(a, b, taken) && SameOthers(b, c, Accepted(taken))
    ensures SameOutside(a, c, taken)
  {
    var info := Accepted(taken);
    forall id | forall i :: 0 <= i < |taken| ==> taken[i].id != id
      ensures (id in c <==> id in a) && (id in a ==> c[id] == a[id])
    {
      forall j | 0 <= j < |info| ensures info[j].id != id { AcceptedFrom(taken, info[j]); }
    }
  }

  lemma NoneRejected(a: map<Id, Response>, items: seq<Item>)
    ensures OnlyRejected(a, a, items)
  {
  }

  lemma OneMoreRejected(a: map<Id, Response>, b: map<Id, Response>, items: seq<Item>, k: nat)
    requires OnlyRejected(a, b, items) && k < |items| && PromptsOf(items[k].req).None?
    ensures OnlyRejected(a, b[items[k].id := Error(InvalidRequest)], items)
  {
  }

  lemma SameItself(a: map<Id, Response>, info: seq<Entry>)
    ensures SameOthers(a, a, info)
  {
  }

  lemma StillUnanswered(before: map<Id, Response>, after: map<Id, Response>, taken: seq<Item>)
    requires OnlyRejected(before, after, taken) && Unanswered(before, taken) && DistinctIds(taken)
    ensures Unanswered(after, taken)
  {
  }

  lemma TakenUnanswered(s: State)
    requires Inv(s) && s.phase.Collecting?
    ensures Unanswered(s.responses, s.phase.batch)
  {
    hide OwnAnswers, DeliveredOnce, QueueOk, RoundCovered;
    forall i | 0 <= i < |s.phase.batch| ensures s.phase.batch[i].id !in s.responses {
      assert Known(s, s.phase.batch[i].id, s.phase.batch[i].req);
    }
  }

  lemma OthersTrans(a: map<Id, Response>, b: map<Id, Response>, c: map<Id, Response>, info: seq<Entry>)
    requires SameOthers(a, b, info) && SameOthers(b, c, info)
    ensures SameOthers(a, c, info)
  {
  }

  /** Requests taken from the front of the queue are settled once the round has ended: answered, with the response there
      for whoever waits, or lost. */
  ghost predicate Settled(s: State, taken: seq<Item>) {
    forall i :: 0 <= i < |taken| ==>
      var id := taken[i].id;
      && id in s.place && s.place[id] in {Answered, Lost}
      && (s.place[id] == Answered && id in s.waiting ==> id in s.responses)
  }

  lemma TakenSettled(before: State, s: State, taken: seq<Item>)
    requires Inv(before) && Inv(s) && s.phase == Collecting([])
    requires taken + s.queue == before.queue && s.requests == before.requests
    ensures Settled(s, taken)
  {
    hide OwnAnswers, DeliveredOnce, RoundOk, Aligned;
    forall i | 0 <= i < |taken|
      ensures taken[i].id in s.place && s.place[taken[i].id] in {Answered, Lost}
      ensures s.place[taken[i].id] == Answered && taken[i].id in s.waiting ==> taken[i].id in s.responses
    {
      var id := taken[i].id;
      assert before.queue[i] == taken[i];
      assert Known(before, id, taken[i].req);
      forall j | 0 <= j < |s.queue| ensures s.queue[j].id != id {
        assert before.queue[|taken| + j] == s.queue[j];
      }
      assert s.place[id] == InRound ==> Unfinished(s.phase, id);
    }
  }

  /** The global queue and response dictionary; `st` is the abstract state the loops move along. */
  class Server {
    const batchSize: nat
    var queue: seq<Item>
    var responses: map<Id, Response>
    ghost var st: State

    constructor (batchSize: nat)
      ensures Valid() && st == INIT && this.batchSize == batchSize
    {
      this.batchSize := batchSize;
      queue, responses, st := [], map[], INIT;
    }

    ghost predicate Valid()
      reads this
    {
      st.queue == queue && st.responses == responses && Inv(st)
    }

    ghost method Advance(a: Action)
      requires Inv(st) && Next(st, a, batchSize).Some?
      modifies this`st
      ensures Inv(st) && st == Next(old(st), a, batchSize).value
    {
      NextKeepsInv(st, a, batchSize);
      st := Next(st, a, batchSize).value;
    }

    method QueueRequest(id: Id, req: Request)
      requires Valid() && id !in st.requests
      modifies this
      ensures Valid() && Some(st) == Next(old(st), Submit(id, req), batchSize)
      ensures queue == old(queue) + [Item(id, req)] && responses == old(responses)
    {
      Advance(Submit(id, req));
      queue := queue + [Item(id, req)];
    }

    /** One look into the response dictionary by the waiting client. */
    method PollResponse(id: Id) returns (r: Option<Response>)
      requires Valid() && id in st.waiting
      modifies this
      ensures Valid() && (r.Some? <==> id in old(responses))
      ensures r.Some? ==> Some(st) == Next(old(st), Poll(id), batchSize) && r.value == old(responses)[id]
      ensures r.None? ==> st == old(st)
      ensures queue == old(queue) && responses == old(responses) - {id}
    {
      if id in responses {
        r := Some(responses[id]);
        Advance(Poll(id));
        responses := responses - {id};
      } else {
        r := None;
      }
    }

    /** As many requests as fit, are there, and come in time. */
    function TakenCount(waiting: seq<Item>, limit: nat): nat {
      var fitting := if batchSize <= limit then batchSize else limit;
      if |waiting| <= fitting then |waiting| else fitting
    }

    /** `limit` says after how many requests the time is up. */
    method CollectBatchedRequests(limit: nat) returns (batch: seq<Item>)
      requires Valid() && st.phase == Collecting([])
      modifies this
      ensures Valid() && st.phase == Collecting(batch) && |batch| == TakenCount(old(queue), limit)
      ensures batch + queue == old(queue) && responses == old(responses) && st.requests == old(st.requests)
    {
      hide Inv;
      batch := [];
      ghost var before := queue;
      while |batch| < batchSize
        invariant Valid() && st.phase == Collecting(batch) && |batch| <= batchSize && |batch| <= limit
        invariant batch + queue == before && responses == old(responses) && st.requests == old(st.requests)
      {
        if |batch| >= limit || queue == [] { break; }
        Advance(Take);
        batch, queue := batch + [queue[0]], queue[1..];
      }
    }

    method PrepareBatchForBroadcast(batch: seq<Item>, tooLarge: bool) returns (prompts: seq<Prompt>, info: seq<Entry>)
      requires Valid() && st.phase == Collecting(batch) && batch != []
      modifies this
      ensures Valid() && queue == old(queue) && st.requests == old(st.requests)
      ensures st.phase == if prompts == [] then Collecting([]) else Generating(prompts, info)
      ensures AllRejected(responses, batch)
      ensures prompts != [] ==> info == Accepted(batch) && prompts == AllPrompts(info) && !tooLarge
      ensures !tooLarge || AllPrompts(Accepted(batch)) == [] ==>
                prompts == AllPrompts(Accepted(batch)) && OnlyRejected(old(responses), responses, batch)
      ensures tooLarge && AllPrompts(Accepted(batch)) != [] ==>
                prompts == [] && AllFailed(responses, Accepted(batch), PayloadTooLarge) &&
                SameOutside(old(responses), responses, batch)
    {
      hide Inv, Mentions, AllPrompts, Accepted, AllFailed, SameOthers, SameOutside, OnlyRejected;
      prompts, info := [], [];
      BatchDistinct(st);
      NoneAccepted();
      NoneRejected(responses, batch);
      assert batch[..0] == [];
      Advance(Close);
      for k := 0 to |batch|
        invariant Valid() && queue == old(queue) && st.requests == old(st.requests)
        invariant st.phase == Preparing(batch[k..], prompts, info)
        invariant info == Accepted(batch[..k]) && AllRejected(responses, batch[..k])
        invariant OnlyRejected(old(responses), responses, batch)
      {
        AcceptedStep(batch, k);
        RejectedStep(responses, batch, k);
        var item := batch[k];
        var ps := PromptsOf(item.req);
        assert batch[k..][0] == item && batch[k..][1..] == batch[k + 1..];
        Advance(Prepare);
        if ps.Some? {
          prompts, info := prompts + ps.value, info + [Entry(item.id, item.req, |ps.value|)];
        } else {
          OneMoreRejected(old(responses), responses, batch, k);
          responses := responses[item.id := Error(InvalidRequest)];
        }
      }
      assert batch[..|batch|] == batch;
      PromptsAligned(st);
      Advance(Broadcast(tooLarge));
      if prompts == [] { return [], []; }
      if tooLarge {
        ghost var before := responses;
        FailAll(info, PayloadTooLarge);
        RejectedStay(before, responses, batch);
        OutsideFrom(old(responses), before, responses, batch);
        return [], [];
      }
    }

    /** Every entry gets the error, and no other response changes. */
    method FailAll(info: seq<Entry>, reason: Reason)
      requires Valid() && st.phase == Failing(info, 0, reason)
      modifies this
      ensures Valid() && st.phase == Collecting([]) && queue == old(queue) && st.requests == old(st.requests)
      ensures AllFailed(responses, info, reason) && SameOthers(old(responses), responses, info)
    {
      hide Inv;
      for k := 0 to |info|
        invariant Valid() && st.phase == Failing(info, k, reason) && queue == old(queue) && st.requests == old(st.requests)
        invariant AllFailed(responses, info[..k], reason) && SameOthers(old(responses), responses, info)
      {
        assert info[..k + 1] == info[..k] + [info[k]];
        Advance(Fail);
        responses := responses[info[k].id := Error(reason)];
      }
      assert info[..|info|] == info;
      Advance(Fail);
    }

    /** Slices the completions along the request map; `raiseAt` is the entry whose response building fails. */
    method ProcessResults(completions: seq<Completion>, info: seq<Entry>, raiseAt: Option<nat>) returns (raised: bool)
      requires Valid() && st.phase == Publishing(completions, info, 0, 0)
      modifies this
      ensures Valid() && queue == old(queue) && st.requests == old(st.requests)
      ensures st.phase == if raised then Failing(info, 0, InferenceFailed) else Collecting([])
      ensures raised <==> raiseAt.Some? && raiseAt.value < |info|
      ensures SameOthers(old(responses), responses, info)
      ensures !raised ==> Served(responses, info, |info|, Texts(completions))
    {
      hide Inv, CreateResponse, Serves;
      var texts := Texts(completions);
      var completionIdx: nat := 0;
      for k := 0 to |info|
        invariant Valid() && st.phase == Publishing(completions, info, k, completionIdx)
        invariant queue == old(queue) && st.requests == old(st.requests)
        invariant raiseAt.Some? ==> k <= raiseAt.value
        invariant Served(responses, info, k, texts) && SameOthers(old(responses), responses, info)
      {
        if raiseAt == Some(k) {
          Advance(Publish(true));
          return true;
        }
        var e := info[k];
        NextServed(st);
        Advance(Publish(false));
        var response := CreateResponse(e.req, completions[completionIdx..completionIdx + e.count]);
        ServedStep(responses, info, k, texts, response);
        responses := responses[e.id := response];
        completionIdx := completionIdx + e.count;
      }
      Advance(Publish(false));
      raised := false;
    }

    /** Generation and publishing: every entry gets the answer made of its own texts, or, after any caught failure, every
        entry an error. */
    method GenerateAndPublish(prompts: seq<Prompt>, info: seq<Entry>, texts: Option<seq<string>>, raiseAt: Option<nat>)
      requires Valid() && st.phase == Generating(prompts, info)
      modifies this
      ensures Valid() && st.phase == Collecting([]) && queue == old(queue) && st.requests == old(st.requests)
      ensures if Succeeds(prompts, info, texts, raiseAt) then Served(responses, info, |info|, texts.value)
              else AllFailed(responses, info, InferenceFailed)
      ensures SameOthers(old(responses), responses, info)
    {
      hide Inv, Served, AllFailed, SameOthers;
      if texts.None? || |texts.value| != |prompts| {
        Advance(Generate(None));
        FailAll(info, InferenceFailed);
      } else {
        Advance(Generate(texts));
        var completions := Zip(prompts, texts.value);
        assert Texts(completions) == texts.value;
        var raised := ProcessResults(completions, info, raiseAt);
        if raised {
          ghost var published := responses;
          FailAll(info, InferenceFailed);
          OthersTrans(old(responses), published, responses, info);
        }
      }
    }

    /** One turn of the main loop on rank 0: afterwards nothing is left in the round, and every request taken from the
        queue has its outcome among the responses or, when none of them has a prompt, is lost. */
    method MainLoopTurn(limit: nat, tooLarge: bool, texts: Option<seq<string>>, raiseAt: Option<nat>)
      requires Valid() && st.phase == Collecting([])
      modifies this
      ensures Valid() && st.phase == Collecting([]) && st.requests == old(st.requests)
      ensures var n := TakenCount(old(queue), limit);
              var taken := old(queue)[..n];
              && queue == old(queue)[n..] && Settled(st, taken)
              && Outcomes(responses, taken, tooLarge, texts, raiseAt) && SameOutside(old(responses), responses, taken)
    {
      hide Inv, Mentions, Settled, AllFailed, Served, SameOthers, AllRejected, Accepted, AllPrompts, Outcomes, DistinctIds;
      hide OnlyRejected, SameOutside, Unanswered, Succeeds;
      ghost var before := st;
      var batch := CollectBatchedRequests(limit);
      BatchDistinct(st);
      TakenUnanswered(st);
      assert batch == old(queue)[..|batch|] && queue == old(queue)[|batch|..];
      if batch == [] {
        NoOutcomes(responses, tooLarge, texts, raiseAt);
      } else {
        ghost var collected := responses;
        var prompts, info := PrepareBatchForBroadcast(batch, tooLarge);
        ghost var prepared := responses;
        if prompts != [] {
          GenerateAndPublish(prompts, info, texts, raiseAt);
          RejectedStay(prepared, responses, batch);
          OutsideFrom(collected, prepared, responses, batch);
        } else if AllPrompts(Accepted(batch)) == [] {
          StillUnanswered(collected, prepared, batch);
          SameItself(responses, Accepted(batch));
          OutsideFrom(collected, prepared, responses, batch);
        }
        OutcomesFrom(responses, batch, tooLarge, texts, raiseAt);
      }
      TakenSettled(before, st, batch);
    }
  }

  lemma NoOutcomes(responses: map<Id, Response>, tooLarge: bool, texts: Option<seq<string>>, raiseAt: Option<nat>)
    ensures Outcomes(responses, [], tooLarge, texts, raiseAt) && SameOutside(responses, responses, [])
  {
  }
}
