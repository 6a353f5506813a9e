/** The broadcast that keeps all ranks of the server in step. Rank 0 offers a payload, the other ranks an empty one;
    everyone receives rank 0's fixed-size message and decides from it alone. */
module Lockstep {
  import opened Wrappers

  type Byte = bv8

  /** The two arrays of `data_to_broadcast`. */
  datatype Message = Message(len: nat, data: seq<Byte>)

  /** What rank 0 offers in a round: the encoded batch, or nothing when there is no batch, no prompt, or too much. */
  function Offer(batch: Option<seq<Byte>>, maxSize: nat): (r: seq<Byte>)
    ensures |r| <= maxSize
  {
    if batch.None? || |batch.value| > maxSize then [] else batch.value
  }

  function Zeros(n: nat): (r: seq<Byte>)
    ensures |r| == n
  {
    seq(n, _ => 0)
  }

  function Pack(payload: seq<Byte>, maxSize: nat): (m: Message)
    requires |payload| <= maxSize
    ensures |m.data| == maxSize
  {
    Message(|payload|, payload + Zeros(maxSize - |payload|))
  }

  function LocalMessage(rank: nat, batch: Option<seq<Byte>>, maxSize: nat): Message {
    Pack(if rank == 0 then Offer(batch, maxSize) else [], maxSize)
  }

  /** `broadcast_one_to_all`. */
  function BroadcastOneToAll(sent: seq<Message>): (received: seq<Message>)
    ensures |received| == |sent|
  {
    seq(|sent|, i requires 0 <= i < |sent| => sent[0])
  }

  /** What a rank does with what it received: skip the round, or generate from these bytes. */
  function Decide(m: Message): Option<seq<Byte>> {
    if m.len == 0 then None else Some(m.data[..if m.len <= |m.data| then m.len else |m.data|])
  }

  /** The payloads each rank has generated from so far. */
  type Logs = seq<seq<seq<Byte>>>

  /** One turn of every rank's loop. */
  method Round(logs: Logs, batch: Option<seq<Byte>>, maxSize: nat) returns (next: Logs)
    ensures next == AfterRound(logs, batch, maxSize)
  {
    var sent := [];
    for r := 0 to |logs|
      invariant sent == seq(r, i requires 0 <= i < r => LocalMessage(i, batch, maxSize))
    {
      sent := sent + [LocalMessage(r, batch, maxSize)];
    }
    var received := BroadcastOneToAll(sent);
    next := [];
    for r := 0 to |logs|
      invariant next == AfterRound(logs[..r], batch, maxSize)
    {
      var decision := Decide(received[r]);
      assert received[r] == LocalMessage(0, batch, maxSize);
      DecisionIsOffer(batch, maxSize);
      next := next + [if decision.Some? then logs[r] + [decision.value] else logs[r]];
    }
    assert logs[..|logs|] == logs;
  }

  /** Every rank adds the offer, or none does. */
  function AfterRound(logs: Logs, batch: Option<seq<Byte>>, maxSize: nat): (r: Logs)
    ensures |r| == |logs|
  {
    var offer := Offer(batch, maxSize);
    seq(|logs|, i requires 0 <= i < |logs| => if offer == [] then logs[i] else logs[i] + [offer])
  }

  /** Padding and cutting give back the offered bytes; nothing offered is nothing to do. */
  lemma DecisionIsOffer(batch: Option<seq<Byte>>, maxSize: nat)
    ensures var offer := Offer(batch, maxSize);
            Decide(LocalMessage(0, batch, maxSize)) == if offer == [] then None else Some(offer)
  {
    var offer := Offer(batch, maxSize);
    assert (offer + Zeros(maxSize - |offer|))[..|offer|] == offer;
  }

  function AfterRounds(logs: Logs, batches: seq<Option<seq<Byte>>>, maxSize: nat): Logs
    decreases |batches|
  {
    if batches == [] then logs else AfterRounds(AfterRound(logs, batches[0], maxSize), batches[1..], maxSize)
  }

  /** The payloads rank 0 offered, in order. */
  function Offered(batches: seq<Option<seq<Byte>>>, maxSize: nat): seq<seq<Byte>> {
    if batches == [] then []
    else (if Offer(batches[0], maxSize) == [] then [] else [Offer(batches[0], maxSize)]) + Offered(batches[1..], maxSize)
  }

  /** Over any number of rounds and ranks, every rank generates from exactly the payloads rank 0 offered, in order. */
  lemma {:induction false} InLockstep(logs: Logs, batches: seq<Option<seq<Byte>>>, maxSize: nat, rank: nat)
    requires rank < |logs|
    ensures |AfterRounds(logs, batches, maxSize)| == |logs|
    ensures AfterRounds(logs, batches, maxSize)[rank] == logs[rank] + Offered(batches, maxSize)
    decreases |batches|
  {
    if batches != [] {
      InLockstep(AfterRound(logs, batches[0], maxSize), batches[1..], maxSize, rank);
    }
  }
}
