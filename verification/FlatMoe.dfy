/** Copying a routed-expert weight [experts, rows, ...] into the flat layout [experts * rows, ...], one target shard at a
    time. A row (after the remaining index axes) stays opaque. */
module FlatMoe {
  import opened Wrappers
  import opened Arithmetic
  import opened Sequences

  ghost predicate Rectangular<R>(src: seq<seq<R>>, rows: nat) {
    forall e :: 0 <= e < |src| ==> |src[e]| == rows
  }

  /** The flat array: row k is row k mod rows of expert k div rows. */
  function Flat<R>(src: seq<seq<R>>, rows: nat): (r: seq<R>)
    requires Rectangular(src, rows)
    ensures |r| == Times(|src|, rows)
    ensures rows > 0 ==> forall k: nat :: k < |r| ==> k / rows < |src| && r[k] == src[k / rows][k % rows]
  {
    RowsInRange(src, rows);
    seq(Times(|src|, rows), k requires 0 <= k < Times(|src|, rows) => src[k / rows][k % rows])
  }

  lemma RowsInRange<R>(src: seq<seq<R>>, rows: nat)
    ensures forall k: nat :: k < Times(|src|, rows) ==> rows > 0 && k / rows < |src| && k % rows < rows
  {
    forall k: nat | k < Times(|src|, rows) ensures rows > 0 && k / rows < |src| && k % rows < rows {
      DivBelow(k, |src|, rows);
    }
  }

  /** Flat row e * rows + i is row i of expert e. */
  lemma FlatRow<R>(src: seq<seq<R>>, rows: nat, e: nat, i: nat)
    requires Rectangular(src, rows) && e < |src| && i < rows
    ensures At(e, rows, i) < |Flat(src, rows)| && Flat(src, rows)[At(e, rows, i)] == src[e][i]
  {
    AtBelow(e, |src|, rows, i);
    DivModUnique(e, rows, i);
  }

  /** Rows lo..hi of one expert are a stretch of the flat array. */
  lemma FlatStretch<R>(src: seq<seq<R>>, rows: nat, e: nat, lo: nat, hi: nat)
    requires Rectangular(src, rows) && e < |src| && lo < hi <= rows
    ensures At(e, rows, hi) <= |Flat(src, rows)|
    ensures src[e][lo..hi] == Flat(src, rows)[At(e, rows, lo)..At(e, rows, hi)]
  {
    FlatRow(src, rows, e, hi - 1);
    forall i | lo <= i < hi ensures At(e, rows, i) < |Flat(src, rows)| && src[e][i] == Flat(src, rows)[At(e, rows, i)] {
      FlatRow(src, rows, e, i);
    }
    hide Flat;
    assert forall i :: lo <= i < hi ==> At(e, rows, i) == At(e, rows, lo) + (i - lo);
  }

  /** Python's `slice.indices(n)` for step one: one bound, defaulted, shifted when negative, clamped. */
  function Bound(b: Option<int>, default: nat, n: nat): (r: nat)
    requires default <= n
    ensures r <= n
  {
    if b.None? then default
    else
      var v := if b.value < 0 then b.value + n else b.value;
      if v < 0 then 0 else if v > n then n else v
  }

  /** Joins the parts, None where `np.concatenate` raises on an empty list. */
  function Concatenate<R>(parts: seq<seq<R>>): Option<seq<R>> {
    if parts == [] then None else Some(Join(parts))
  }

  /** Python's `divmod`. */
  method DivModOf(n: nat, m: nat) returns (q: nat, r: nat)
    requires m > 0
    ensures q == n / m && r == n % m
  {
    q, r := n / m, n % m;
  }

  /** One turn of the copy loop: the rows taken from the current expert continue the stretch copied so far. */
  lemma CopyStep<R>(src: seq<seq<R>>, rows: nat, begin: nat, start: nat, stop: nat)
    requires Rectangular(src, rows) && begin <= start < stop <= Times(|src|, rows)
    ensures rows > 0 && start / rows < |src| && start % rows < rows
    ensures var expert, lo := start / rows, start % rows;
            var hi := if lo + stop - start < rows then lo + stop - start else rows;
            && lo < hi && start + (hi - lo) <= stop
            && Flat(src, rows)[begin..start] + src[expert][lo..hi] == Flat(src, rows)[begin..start + (hi - lo)]
  {
    RowsInRange(src, rows);
    DivMod(start, rows);
    CopyStepAt(src, rows, begin, start, stop, start / rows, start % rows);
  }

  lemma CopyStepAt<R>(src: seq<seq<R>>, rows: nat, begin: nat, start: nat, stop: nat, expert: nat, lo: nat)
    requires Rectangular(src, rows) && begin <= start < stop <= Times(|src|, rows)
    requires expert < |src| && lo < rows && start == At(expert, rows, lo)
    ensures var hi := if lo + stop - start < rows then lo + stop - start else rows;
            && lo < hi && start + (hi - lo) <= stop
            && Flat(src, rows)[begin..start] + src[expert][lo..hi] == Flat(src, rows)[begin..start + (hi - lo)]
  {
    var hi := if lo + stop - start < rows then lo + stop - start else rows;
    FlatStretch(src, rows, expert, lo, hi);
    assert At(expert, rows, hi) == start + (hi - lo);
    hide Flat, At, Times;
    Stretch(Flat(src, rows), begin, start, start + (hi - lo));
  }

  lemma Stretch<R>(flat: seq<R>, a: nat, b: nat, c: nat)
    requires a <= b <= c <= |flat|
    ensures flat[a..b] + flat[b..c] == flat[a..c]
  {
  }

  /** One target shard: it ends, stays in range, and is the requested stretch of the flat array; an empty one fails. */
  method Block<R>(src: seq<seq<R>>, rows: nat, first: Option<int>, last: Option<int>) returns (block: Option<seq<R>>)
    requires Rectangular(src, rows)
    ensures var total := Times(|src|, rows);
            var (start, stop) := (Bound(first, 0, total), Bound(last, total, total));
            block == if start < stop then Some(Flat(src, rows)[start..stop]) else None
  {
    hide Times;
    var total := Times(|src|, rows);
    var begin, stop := Bound(first, 0, total), Bound(last, total, total);
    var start := begin;
    var parts: seq<seq<R>> := [];
    while start < stop
      invariant begin <= start && (start <= stop || start == begin)
      invariant begin <= stop ==> start <= stop && Join(parts) == Flat(src, rows)[begin..start]
      invariant parts == [] <==> start == begin
      decreases stop - start
    {
      CopyStep(src, rows, begin, start, stop);
      hide Flat;
      var expert, lo := DivModOf(start, rows);
      var hi := if lo + stop - start < rows then lo + stop - start else rows;
      ghost var before := parts;
      parts := parts + [src[expert][lo..hi]];
      assert parts[..|parts| - 1] == before;
      start := start + (hi - lo);
    }
    block := Concatenate(parts);
  }

  /** Shards cut at ascending bounds from 0 to the end. */
  function Pieces<R>(flat: seq<R>, cuts: seq<nat>): (r: seq<seq<R>>)
    requires forall i :: 0 <= i < |cuts| - 1 ==> cuts[i] <= cuts[i + 1]
    requires forall i :: 0 <= i < |cuts| ==> cuts[i] <= |flat|
    requires |cuts| > 0
    ensures |r| == |cuts| - 1
  {
    seq(|cuts| - 1, i requires 0 <= i < |cuts| - 1 => flat[cuts[i]..cuts[i + 1]])
  }

  /** The shards of a tiling, joined, are the whole flat array. */
  lemma {:induction false} PiecesReassemble<R>(flat: seq<R>, cuts: seq<nat>)
    requires |cuts| > 0 && forall i :: 0 <= i < |cuts| - 1 ==> cuts[i] <= cuts[i + 1]
    requires forall i :: 0 <= i < |cuts| ==> cuts[i] <= |flat|
    ensures cuts[0] <= cuts[|cuts| - 1]
    ensures Join(Pieces(flat, cuts)) == flat[cuts[0]..cuts[|cuts| - 1]]
  {
    if |cuts| > 1 {
      var front := cuts[..|cuts| - 1];
      PiecesReassemble(flat, front);
      assert Pieces(flat, cuts)[..|cuts| - 2] == Pieces(flat, front);
      var a, b, c := cuts[0], cuts[|cuts| - 2], cuts[|cuts| - 1];
      Stretch(flat, a, b, c);
    }
  }

  /** Building the array shard by shard from non-empty blocks that tile the flat rows: every block is delivered, and
      together they are the flat array. */
  method MakeArray<R>(src: seq<seq<R>>, rows: nat, cuts: seq<nat>) returns (blocks: seq<seq<R>>)
    requires Rectangular(src, rows)
    requires |cuts| > 0 && cuts[0] == 0 && cuts[|cuts| - 1] == Times(|src|, rows)
    requires forall i :: 0 <= i < |cuts| - 1 ==> cuts[i] < cuts[i + 1]
    ensures forall i :: 0 <= i < |cuts| ==> cuts[i] <= cuts[|cuts| - 1]
    ensures blocks == Pieces(Flat(src, rows), cuts) && Join(blocks) == Flat(src, rows)
  {
    hide Times, Rectangular, Join;
    var flat := Flat(src, rows);
    CutsBelow(cuts);
    blocks := [];
    for k := 0 to |cuts| - 1
      invariant |blocks| == k && forall j :: 0 <= j < k ==> blocks[j] == flat[cuts[j]..cuts[j + 1]]
    {
      var block := Block(src, rows, Some(cuts[k]), Some(cuts[k + 1]));
      blocks := blocks + [block.value];
    }
    PiecesReassemble(flat, cuts);
    assert flat[0..|flat|] == flat;
  }

  /** In the shards of a tiling, a row of an expert stands where its flat number falls. */
  lemma PieceRow<R>(src: seq<seq<R>>, rows: nat, cuts: seq<nat>, k: nat, e: nat, i: nat)
    requires Rectangular(src, rows) && |cuts| > 0 && cuts[|cuts| - 1] == Times(|src|, rows)
    requires forall j :: 0 <= j < |cuts| - 1 ==> cuts[j] < cuts[j + 1]
    requires k < |cuts| - 1 && e < |src| && i < rows && cuts[k] <= At(e, rows, i) < cuts[k + 1]
    ensures forall j :: 0 <= j < |cuts| ==> cuts[j] <= cuts[|cuts| - 1]
    ensures var piece := Pieces(Flat(src, rows), cuts)[k];
            At(e, rows, i) - cuts[k] < |piece| && piece[At(e, rows, i) - cuts[k]] == src[e][i]
  {
    hide Times, At, Rectangular;
    CutsBelow(cuts);
    FlatRow(src, rows, e, i);
  }

  lemma {:induction false} CutsBelow(cuts: seq<nat>)
    requires |cuts| > 0 && forall i :: 0 <= i < |cuts| - 1 ==> cuts[i] < cuts[i + 1]
    ensures forall i :: 0 <= i < |cuts| ==> cuts[i] <= cuts[|cuts| - 1]
  {
    if |cuts| > 1 {
      CutsBelow(cuts[..|cuts| - 1]);
      assert forall i :: 0 <= i < |cuts| - 1 ==> cuts[..|cuts| - 1][i] == cuts[i];
    }
  }
}
