/** The training data loader: round-robin over data iterators, and batch-size ramp-up that re-slices fixed-size batches
    through one mutable buffer. */
module RampUpLoader {
  import opened Wrappers
  import opened Arithmetic

  type Row = string
  type Batch = seq<Row>

  // ---- The ramp-up manager ----

  class RampupBatchManager {
    const end: nat
    const increment: nat
    const samplesPerIncrement: real
    var current: nat
    var accumulated: nat

    constructor (start: nat, end: nat, increment: nat, samplesPerIncrement: real)
      requires 1 <= start < end
      ensures Valid() && current == start && this.end == end && this.increment == increment
    {
      this.end, this.increment, this.samplesPerIncrement := end, increment, samplesPerIncrement;
      current, accumulated := start, 0;
    }

    ghost predicate Valid()
      reads this
    {
      1 <= current <= end
    }

    /** Counts the batch just used; the size never shrinks and never passes the end. */
    method Update() returns (active: bool)
      requires Valid()
      modifies this
      ensures Valid() && (active <==> current < end)
      ensures current == if (old(accumulated + current)) as real < samplesPerIncrement then old(current)
                         else if increment + old(current) < end then increment + old(current) else end
      ensures accumulated == if (old(accumulated + current)) as real < samplesPerIncrement then old(accumulated + current)
                             else 0
    {
      accumulated := accumulated + current;
      if accumulated as real >= samplesPerIncrement {
        current := if increment + current < end then increment + current else end;
        accumulated := 0;
      }
      active := current < end;
    }
  }

  // ---- The input stream ----

  /** Batch k of the round-robin over the iterators, None when its iterator has run out. */
  function StreamAt(iterators: seq<seq<Batch>>, k: nat): Option<Batch>
    requires iterators != []
  {
    if k / |iterators| < |iterators[k % |iterators|]| then Some(iterators[k % |iterators|][k / |iterators|]) else None
  }

  /** What the loader reads: the iterators, and whether one batch is used again and again. */
  datatype Source = Source(iterators: seq<seq<Batch>>, reuse: bool)

  /** The k-th batch handed to the buffer. */
  function InputAt(src: Source, k: nat): Option<Batch>
    requires src.iterators != []
  {
    StreamAt(src.iterators, if src.reuse then 0 else k)
  }

  /** The first n batches are there, and full. */
  ghost predicate Available(src: Source, n: nat, size: nat) {
    src.iterators != [] && forall k: nat :: k < n ==> InputAt(src, k).Some? && |InputAt(src, k).value| == size
  }

  /** The rows of the first n batches. */
  ghost function Rows(src: Source, n: nat, size: nat): (r: seq<Row>)
    requires Available(src, n, size)
  {
    if n == 0 then [] else Rows(src, n - 1, size) + InputAt(src, n - 1).value
  }

  // ---- The buffer ----

  /** `out` is everything emitted so far, `ramped` its length when ramp-up ended, `lost` what the buffer still held then. */
  datatype View = View(active: bool, buffer: Option<Batch>, start: nat, taken: nat, out: seq<Row>, ramped: nat, lost: seq<Row>)

  const INIT := View(true, None, 0, 0, [], 0, [])

  /** Emitting `output` and asking the manager whether ramp-up goes on. */
  function Emit(v: View, output: Batch, goesOn: bool): View {
    var out := v.out + output;
    if goesOn || v.buffer.None? || v.start > |v.buffer.value| then v.(out := out, active := goesOn)
    else v.(out := out, active := false, ramped := |out|, lost := v.buffer.value[v.start..])
  }

  /** Fetching the first batch when the buffer is empty; None when the input has ended. */
  function Primed(v: View, src: Source): Option<View>
    requires src.iterators != []
  {
    if v.buffer.Some? then Some(v)
    else
      var b := InputAt(src, v.taken);
      if b.None? then None else Some(v.(buffer := b, start := 0, taken := v.taken + 1))
  }

  /** A slice of the buffer, continued in the next batch when it runs past the end. None when a slice would leave its
      buffer or the input has ended. */
  function Sliced(v: View, current: nat, size: nat, src: Source): Option<(View, Batch)>
    requires src.iterators != [] && v.buffer.Some?
  {
    var oldData, end := v.buffer.value, v.start + current;
    if end > size then
      var b := InputAt(src, v.taken);
      if b.None? || v.start > size || |oldData| != size || end - size > |b.value| then None
      else Some((v.(buffer := b, start := end - size, taken := v.taken + 1), oldData[v.start..size] + b.value[..end - size]))
    else if end > |oldData| then None
    else Some((v.(start := end), oldData[v.start..end]))
  }

  /** `load_next_batch`: the view after it and the batch returned. */
  function Load(v: View, current: nat, goesOn: bool, size: nat, src: Source): Option<(View, Batch)>
    requires src.iterators != []
  {
    if !v.active then
      var b := InputAt(src, v.taken);
      if b.None? then None else Some((v.(taken := v.taken + 1, out := v.out + b.value), b.value))
    else
      var p := Primed(v, src);
      if p.None? then None
      else
        var s := Sliced(p.value, current, size, src);
        if s.None? then None else Some((Emit(s.value.0, s.value.1, goesOn), s.value.1))
  }

  /** Input taken = output emitted + the rest of the buffer, while ramping up; afterwards the one lost tail, shorter than a
      batch, stands where ramp-up ended. */
  ghost predicate Conserved(v: View, size: nat, src: Source) {
    && Available(src, v.taken, size)
    && if v.active then
         if v.buffer.None? then v.taken == 0 && v.out == []
         else 0 < v.taken && |v.buffer.value| == size && 0 < v.start <= size
              && v.out + v.buffer.value[v.start..] == Rows(src, v.taken, size)
              && v.buffer == InputAt(src, v.taken - 1)
       else
         && v.ramped <= |v.out| && |v.lost| < size
         && v.out[..v.ramped] + v.lost + v.out[v.ramped..] == Rows(src, v.taken, size)
  }

  /** Every batch of the input has the full size. */
  ghost predicate FullBatches(src: Source, size: nat) {
    src.iterators != [] && forall k: nat :: InputAt(src, k).Some? ==> |InputAt(src, k).value| == size
  }

  /** The buffer is filled and the next slice starts where the last one ended. */
  ghost predicate Ready(v: View, size: nat, src: Source) {
    && v.active && v.buffer.Some? && 0 < v.taken && |v.buffer.value| == size && v.start <= size
    && Available(src, v.taken, size)
    && v.out + v.buffer.value[v.start..] == Rows(src, v.taken, size)
    && v.buffer == InputAt(src, v.taken - 1)
  }

  lemma PrimedReady(v: View, size: nat, src: Source)
    requires Conserved(v, size, src) && v.active && FullBatches(src, size)
    ensures Primed(v, src).Some? ==> Ready(Primed(v, src).value, size, src)
    ensures Primed(v, src).None? ==> InputAt(src, v.taken).None?
  {
    hide InputAt;
    if v.buffer.None? && InputAt(src, 0).Some? {
      assert Rows(src, 0, size) == [];
      assert Rows(src, 1, size) == [] + InputAt(src, 0).value;
      assert InputAt(src, 0).value[0..] == InputAt(src, 0).value;
    }
  }

  /** A slice of 1 to `size` rows never leaves its buffer: it fails only when the input has ended. */
  lemma SlicedKeeps(v: View, current: nat, size: nat, src: Source)
    requires Ready(v, size, src) && FullBatches(src, size) && 1 <= current <= size
    ensures var s := Sliced(v, current, size, src);
            && (s.None? ==> InputAt(src, v.taken).None?)
            && (s.Some? ==>
                var (w, output) := s.value;
                |output| == current && w.start > 0 && w.out == v.out && Ready(w.(out := v.out + output), size, src))
  {
    hide InputAt;
    var end := v.start + current;
    if end > size && InputAt(src, v.taken).Some? {
      var b := InputAt(src, v.taken).value;
      assert v.buffer.value[v.start..size] == v.buffer.value[v.start..];
      var cut := end - size;
      assert b == b[..cut] + b[cut..];
      assert v.out + (v.buffer.value[v.start..] + b[..cut]) + b[cut..] == v.out + v.buffer.value[v.start..] + b;
    } else if end <= size {
      assert v.buffer.value[v.start..] == v.buffer.value[v.start..end] + v.buffer.value[end..];
      assert v.out + v.buffer.value[v.start..end] + v.buffer.value[end..] == v.out + v.buffer.value[v.start..];
    }
  }

  /** The rows at hand are fewer than the load needs. */
  predicate NeedsInput(v: View, current: nat) {
    !v.active || v.buffer.None? || |v.buffer.value| < v.start + current
  }

  /** A load emits a batch of the wanted size and keeps conservation; it reads one batch of input when it needs one, and
      fails exactly when that one is missing. */
  lemma LoadConserves(v: View, current: nat, goesOn: bool, size: nat, src: Source)
    requires Conserved(v, size, src) && FullBatches(src, size) && 1 <= current <= size
    ensures var l := Load(v, current, goesOn, size, src);
            && (l.Some? ==> Conserved(l.value.0, size, src) && l.value.0.out == v.out + l.value.1
                            && |l.value.1| == (if v.active then current else size)
                            && l.value.0.taken == v.taken + (if NeedsInput(v, current) then 1 else 0)
                            && l.value.0.active == (v.active && goesOn))
            && (l.None? <==> NeedsInput(v, current) && InputAt(src, v.taken).None?)
  {
    hide InputAt;
    if v.active {
      PrimedReady(v, size, src);
      var p := Primed(v, src);
      if p.Some? {
        SlicedKeeps(p.value, current, size, src);
        var s := Sliced(p.value, current, size, src);
        if s.Some? && !goesOn { EndConserves(s.value.0, s.value.1, size, src); }
      }
    } else if InputAt(src, v.taken).Some? {
      var b := InputAt(src, v.taken).value;
      assert (v.out + b)[..v.ramped] == v.out[..v.ramped] && (v.out + b)[v.ramped..] == v.out[v.ramped..] + b;
      assert v.out[..v.ramped] + v.lost + (v.out[v.ramped..] + b) == v.out[..v.ramped] + v.lost + v.out[v.ramped..] + b;
    }
  }

  lemma EndConserves(v: View, output: Batch, size: nat, src: Source)
    requires Ready(v.(out := v.out + output), size, src) && v.start > 0
    ensures Conserved(Emit(v, output, false), size, src)
  {
    var w := Emit(v, output, false);
    assert w.out[..w.ramped] == w.out && w.out[w.ramped..] == [];
    assert w.out + w.lost + [] == w.out + w.lost;
  }

  /** One call of a run: the manager's current size, and whether ramp-up goes on after it. */
  datatype Call = Call(current: nat, goesOn: bool)

  function Run(v: View, calls: seq<Call>, size: nat, src: Source): Option<View>
    requires src.iterators != []
    decreases |calls|
  {
    if calls == [] then Some(v)
    else
      var l := Load(v, calls[0].current, calls[0].goesOn, size, src);
      if l.None? then None else Run(l.value.0, calls[1..], size, src)
  }

  /** Over every run: while ramping up the emitted rows are a prefix of the input; over the whole run they are the input
      less one stretch shorter than a batch, dropped when ramp-up ended. */
  lemma {:induction false} StreamRefined(v: View, calls: seq<Call>, size: nat, src: Source)
    requires Conserved(v, size, src) && FullBatches(src, size)
    requires forall i :: 0 <= i < |calls| ==> 1 <= calls[i].current <= size
    requires Run(v, calls, size, src).Some?
    ensures var w := Run(v, calls, size, src).value;
            && Conserved(w, size, src)
            && (w.active ==> w.out <= Rows(src, w.taken, size))
            && (!w.active ==>
                w.ramped <= |w.out| && |w.lost| < size &&
                w.out[..w.ramped] + w.lost + w.out[w.ramped..] == Rows(src, w.taken, size))
    decreases |calls|
  {
    hide InputAt, Load;
    if calls != [] {
      LoadConserves(v, calls[0].current, calls[0].goesOn, size, src);
      StreamRefined(Load(v, calls[0].current, calls[0].goesOn, size, src).value.0, calls[1..], size, src);
    }
  }

  // ---- The loader on mutable state ----

  class RampUpDataLoader {
    const iterators: seq<seq<Batch>>
    const reuse: bool
    var positions: seq<nat>
    var dataIteratorIndex: nat
    var lastBatch: Option<Batch>
    var rampupActive: bool
    var batchBuffer: Option<Batch>
    var bufferStart: nat
    ghost var history: View

    constructor (iterators: seq<seq<Batch>>, reuse: bool)
      requires iterators != []
      ensures Valid() && history == INIT && this.iterators == iterators && this.reuse == reuse
    {
      this.iterators, this.reuse := iterators, reuse;
      positions := seq(|iterators|, i => 0);
      dataIteratorIndex, lastBatch := 0, None;
      rampupActive, batchBuffer, bufferStart, history := true, None, 0, INIT;
      new;
      DivModUnique(0, |iterators|, 0);
    }

    /** After n fetches the iterators below the index are one batch ahead of the others. */
    ghost predicate Turns(n: nat)
      reads this`positions, this`dataIteratorIndex
    {
      && iterators != [] && |positions| == |iterators| && dataIteratorIndex == n % |iterators|
      && forall j :: 0 <= j < |positions| ==> positions[j] == n / |iterators| + if j < dataIteratorIndex then 1 else 0
    }

    ghost function Input(): Source {
      Source(iterators, reuse)
    }

    /** Fetches made from the iterators for the batches taken so far. */
    ghost function Fetches(taken: nat): nat {
      if reuse && taken > 0 then 1 else taken
    }

    ghost predicate Valid()
      reads this
    {
      && Turns(Fetches(history.taken))
      && (lastBatch.None? <==> history.taken == 0)
      && (lastBatch.Some? && reuse ==> lastBatch == StreamAt(iterators, 0))
      && history.active == rampupActive && history.buffer == batchBuffer && history.start == bufferStart
    }

    method UpdateDataIterator(ghost n: nat)
      requires iterators != [] && |positions| == |iterators| && dataIteratorIndex == n % |iterators|
      requires forall j :: 0 <= j < |positions| ==> positions[j] == n / |iterators| + if j <= dataIteratorIndex then 1 else 0
      modifies this`dataIteratorIndex
      ensures Turns(n + 1)
    {
      DivModStep(n, |iterators|);
      ghost var q := dataIteratorIndex + 1;
      if q < |iterators| { DivModUnique(0, |iterators|, q); } else { DivModUnique(1, |iterators|, 0); }
      dataIteratorIndex := (dataIteratorIndex + 1) % |iterators|;
    }

    /** Fetches the next batch of the stream, or repeats the last one when batches are reused; None is StopTraining. */
    method LoadNextBatchPreSharding(ghost taken: nat) returns (batch: Option<Batch>)
      requires Turns(Fetches(taken)) && (lastBatch.None? <==> taken == 0)
      requires lastBatch.Some? && reuse ==> lastBatch == StreamAt(iterators, 0)
      modifies this`positions, this`dataIteratorIndex, this`lastBatch
      ensures batch == InputAt(Input(), taken)
      ensures batch.Some? ==> Turns(Fetches(taken + 1)) && lastBatch == batch
      ensures batch.Some? && reuse ==> batch == StreamAt(iterators, 0)
      ensures batch.None? ==> Turns(Fetches(taken)) && lastBatch == old(lastBatch)
    {
      if reuse && lastBatch.Some? { return lastBatch; }
      var i := dataIteratorIndex;
      if positions[i] >= |iterators[i]| { return None; }
      batch := Some(iterators[i][positions[i]]);
      positions := positions[i := positions[i] + 1];
      UpdateDataIterator(taken);
      lastBatch := batch;
    }

    /** The parent's `load_next_batch`. */
    method LoadPlain() returns (output: Option<Batch>)
      requires Valid() && !rampupActive
      modifies this
      ensures Valid() && output == InputAt(Input(), old(history.taken))
      ensures output.Some? ==> history == old(history).(taken := old(history.taken) + 1, out := old(history.out) + output.value)
      ensures output.None? ==> history == old(history)
    {
      hide Turns, InputAt;
      output := LoadNextBatchPreSharding(history.taken);
      if output.Some? {
        history := history.(taken := history.taken + 1, out := history.out + output.value);
      }
    }

    method FillBuffer() returns (filled: bool)
      requires Valid() && rampupActive
      modifies this
      ensures Valid() && rampupActive && history.out == old(history.out)
      ensures if filled then Primed(old(history), Input()) == Some(history)
              else Primed(old(history), Input()).None? && history == old(history)
    {
      if batchBuffer.Some? { return true; }
      hide Turns, InputAt;
      var first := LoadNextBatchPreSharding(history.taken);
      if first.None? { return false; }
      batchBuffer, bufferStart := first, 0;
      history := history.(buffer := batchBuffer, start := 0, taken := history.taken + 1);
      filled := true;
    }

    /** The next `current` rows, continued in a new batch when the buffer ends first. */
    method TakeSlice(current: nat, size: nat) returns (output: Option<Batch>)
      requires Valid() && rampupActive && Ready(history, size, Input()) && FullBatches(Input(), size) && 1 <= current <= size
      modifies this
      ensures Valid() && rampupActive
      ensures output.Some? ==> Sliced(old(history), current, size, Input()) == Some((history, output.value))
      ensures output.None? ==> Sliced(old(history), current, size, Input()).None? && history == old(history)
    {
      SlicedKeeps(history, current, size, Input());
      hide Turns, InputAt;
      var sliceStart, sliceEnd := bufferStart, bufferStart + current;
      if sliceEnd > size {
        var newData := LoadNextBatchPreSharding(history.taken);
        if newData.None? { return None; }
        var oldData := batchBuffer.value;
        batchBuffer := newData;
        output := Some(oldData[sliceStart..size] + newData.value[..sliceEnd - size]);
        bufferStart := sliceEnd - size;
        history := history.(buffer := batchBuffer, start := bufferStart, taken := history.taken + 1);
      } else {
        output := Some(batchBuffer.value[sliceStart..sliceStart + current]);
        bufferStart := sliceEnd;
        history := history.(start := bufferStart);
      }
    }

    /** `load_next_batch`; None is StopTraining, after which nothing emitted is lost. */
    method LoadNextBatch(manager: RampupBatchManager) returns (output: Option<Batch>)
      requires Valid() && manager.Valid() && FullBatches(Input(), manager.end)
      requires Conserved(history, manager.end, Input())
      modifies this, manager
      ensures Valid() && manager.Valid() && (output.Some? ==> Conserved(history, manager.end, Input()))
      ensures output.Some? ==>
                Load(old(history), old(manager.current), manager.current < manager.end, manager.end, Input()) ==
                Some((history, output.value))
      ensures output.None? ==>
                Load(old(history), old(manager.current), true, manager.end, Input()).None? && history.out == old(history.out)
      ensures output.None? <==> NeedsInput(old(history), old(manager.current)) && InputAt(Input(), old(history.taken)).None?
      ensures output.Some? ==> |output.value| == if old(rampupActive) then old(manager.current) else manager.end
    {
      hide InputAt, Conserved, FullBatches, Turns, Sliced, Primed;
      ghost var v, size, current := history, manager.end, manager.current;
      LoadConserves(v, current, true, size, Input());
      if !rampupActive {
        output := LoadPlain();
        LoadConserves(v, current, manager.current < manager.end, size, Input());
        return;
      }
      PrimedReady(v, size, Input());
      var filled := FillBuffer();
      if !filled { return None; }
      output := TakeSlice(manager.current, manager.end);
      if output.None? { return; }
      rampupActive := manager.Update();
      LoadConserves(v, current, rampupActive, size, Input());
      history := Emit(history, output.value, rampupActive);
    }
  }
}
