/** Restricting a device mesh to one device per shard. A mesh axis is named by its position. */
module WithoutReplicas {
  import opened MixedRadix
  import opened Sequences

  type Axis = nat

  /** One entry of a partition spec: nothing, one mesh axis, or several in major-to-minor order. */
  datatype Entry = Unsharded | Name(axis: Axis) | Names(axes: seq<Axis>)

  function AxesOf(e: Entry): seq<Axis> {
    match e case Unsharded => [] case Name(a) => [a] case Names(axes) => axes
  }

  predicate Used(spec: seq<Entry>, a: Axis) {
    exists k :: 0 <= k < |spec| && a in AxesOf(spec[k])
  }

  /** The axes of an entry exist and differ. */
  ghost predicate ValidEntry(sizes: seq<nat>, e: Entry) {
    && (forall i :: 0 <= i < |AxesOf(e)| ==> AxesOf(e)[i] < |sizes|)
    && (forall i, j :: 0 <= i < j < |AxesOf(e)| ==> AxesOf(e)[i] != AxesOf(e)[j])
  }

  ghost predicate Disjoint(e: Entry, f: Entry) {
    forall a :: a in AxesOf(e) ==> a !in AxesOf(f)
  }

  /** A sharding's own condition: axes exist, and none is named twice. */
  ghost predicate ValidSpec(sizes: seq<nat>, spec: seq<Entry>) {
    && (forall k :: 0 <= k < |spec| ==> ValidEntry(sizes, spec[k]))
    && (forall k, l :: 0 <= k < l < |spec| ==> Disjoint(spec[k], spec[l]))
  }

  ghost predicate ValidMesh(sizes: seq<nat>) {
    forall a :: 0 <= a < |sizes| ==> sizes[a] > 0
  }

  /** The block of array dimension k that a device holds. */
  function Block(device: seq<nat>, sizes: seq<nat>, e: Entry): nat
    requires |device| == |sizes| && ValidEntry(sizes, e)
  {
    Encode(Pick(device, AxesOf(e)), Pick(sizes, AxesOf(e)))
  }

  /** The shard a device holds: one block index per array dimension. */
  ghost function Shard(device: seq<nat>, sizes: seq<nat>, spec: seq<Entry>): (r: seq<nat>)
    requires |device| == |sizes| && ValidSpec(sizes, spec)
    ensures |r| == |spec|
  {
    seq(|spec|, k requires 0 <= k < |spec| => Block(device, sizes, spec[k]))
  }

  predicate Replicated(sizes: seq<nat>, spec: seq<Entry>, a: Axis)
    requires a < |sizes|
  {
    !Used(spec, a) && sizes[a] > 1
  }

  /** `without_replicas`: the mesh sliced to its first position along every replicated axis. */
  function Restrict(sizes: seq<nat>, spec: seq<Entry>): (r: seq<nat>)
    ensures |r| == |sizes|
  {
    seq(|sizes|, a requires 0 <= a < |sizes| => if Replicated(sizes, spec, a) then 1 else sizes[a])
  }

  lemma BlockDetermines(d: seq<nat>, e: seq<nat>, sizes: seq<nat>, entry: Entry, a: Axis)
    requires Digits(d, sizes) && Digits(e, sizes) && a in AxesOf(entry)
    requires ValidEntry(sizes, entry)
    requires Block(d, sizes, entry) == Block(e, sizes, entry)
    ensures d[a] == e[a]
  {
    var axes := AxesOf(entry);
    EncodeInjective(Pick(d, axes), Pick(e, axes), Pick(sizes, axes));
    var i :| 0 <= i < |axes| && axes[i] == a;
    assert Pick(d, axes)[i] == Pick(e, axes)[i];
  }

  /** Devices kept by the restriction are devices of the full mesh, and their shards are counted alike. */
  lemma RestrictedDevice(d: seq<nat>, sizes: seq<nat>, spec: seq<Entry>)
    requires Digits(d, Restrict(sizes, spec)) && ValidSpec(sizes, spec)
    ensures Digits(d, sizes) && Shard(d, Restrict(sizes, spec), spec) == Shard(d, sizes, spec)
  {
    var kept := Restrict(sizes, spec);
    forall k | 0 <= k < |spec| ensures Block(d, kept, spec[k]) == Block(d, sizes, spec[k]) {
      var axes := AxesOf(spec[k]);
      forall i | 0 <= i < |axes| ensures kept[axes[i]] == sizes[axes[i]] {
        assert axes[i] in AxesOf(spec[k]);
      }
      assert Pick(kept, axes) == Pick(sizes, axes);
    }
  }

  /** Two kept devices never hold the same shard. */
  lemma KeptDistinct(d: seq<nat>, e: seq<nat>, sizes: seq<nat>, spec: seq<Entry>)
    requires ValidSpec(sizes, spec) && ValidMesh(sizes)
    requires Digits(d, Restrict(sizes, spec)) && Digits(e, Restrict(sizes, spec))
    requires Shard(d, sizes, spec) == Shard(e, sizes, spec)
    ensures d == e
  {
    RestrictedDevice(d, sizes, spec);
    RestrictedDevice(e, sizes, spec);
    forall a | 0 <= a < |sizes| ensures d[a] == e[a] {
      if Used(spec, a) {
        var k :| 0 <= k < |spec| && a in AxesOf(spec[k]);
        assert Shard(d, sizes, spec)[k] == Shard(e, sizes, spec)[k];
        BlockDetermines(d, e, sizes, spec[k], a);
      } else {
        assert Restrict(sizes, spec)[a] == 1;
      }
    }
  }

  /** The device kept for the shard of `d`. */
  function Representative(d: seq<nat>, sizes: seq<nat>, spec: seq<Entry>): (r: seq<nat>)
    requires |d| == |sizes|
    ensures |r| == |d|
  {
    seq(|d|, a requires 0 <= a < |d| => if Replicated(sizes, spec, a) then 0 else d[a])
  }

  /** Every shard of the full mesh stays on exactly one kept device. */
  lemma ShardsKeptOnce(d: seq<nat>, sizes: seq<nat>, spec: seq<Entry>)
    requires ValidSpec(sizes, spec) && ValidMesh(sizes) && Digits(d, sizes)
    ensures var r := Representative(d, sizes, spec);
            && Digits(r, Restrict(sizes, spec)) && Shard(r, sizes, spec) == Shard(d, sizes, spec)
            && forall e :: Digits(e, Restrict(sizes, spec)) && Shard(e, sizes, spec) == Shard(d, sizes, spec) ==> e == r
  {
    var r := Representative(d, sizes, spec);
    forall k | 0 <= k < |spec| ensures Block(r, sizes, spec[k]) == Block(d, sizes, spec[k]) {
      var axes := AxesOf(spec[k]);
      forall i | 0 <= i < |axes| ensures r[axes[i]] == d[axes[i]] {
        assert axes[i] in AxesOf(spec[k]);
      }
      assert Pick(r, axes) == Pick(d, axes);
    }
    assert Shard(r, sizes, spec) == Shard(d, sizes, spec);
    forall e | Digits(e, Restrict(sizes, spec)) && Shard(e, sizes, spec) == Shard(d, sizes, spec) ensures e == r {
      KeptDistinct(e, r, sizes, spec);
    }
  }

  /** The function's early return is right: a mesh has a replicated axis exactly when two devices hold one shard. */
  lemma ReplicasIff(sizes: seq<nat>, spec: seq<Entry>)
    requires ValidSpec(sizes, spec) && ValidMesh(sizes)
    ensures Restrict(sizes, spec) == sizes <==>
            forall d, e :: Digits(d, sizes) && Digits(e, sizes) && Shard(d, sizes, spec) == Shard(e, sizes, spec) ==> d == e
  {
    if Restrict(sizes, spec) == sizes {
      forall d, e | Digits(d, sizes) && Digits(e, sizes) && Shard(d, sizes, spec) == Shard(e, sizes, spec) ensures d == e {
        KeptDistinct(d, e, sizes, spec);
      }
    } else {
      var a :| 0 <= a < |sizes| && Restrict(sizes, spec)[a] != sizes[a];
      var zeros: seq<nat> := seq(|sizes|, i => 0);
      var one := zeros[a := 1];
      ShardsKeptOnce(one, sizes, spec);
      assert Representative(one, sizes, spec) == zeros;
      assert Digits(zeros, sizes) && Digits(one, sizes) && one[a] != zeros[a];
    }
  }

  /** Number of blocks along one array dimension. */
  function Blocks(sizes: seq<nat>, e: Entry): nat
    requires ValidEntry(sizes, e)
  {
    Size(Pick(sizes, AxesOf(e)))
  }

  /** Block indices stay below the block counts. */
  lemma ShardInRange(d: seq<nat>, sizes: seq<nat>, spec: seq<Entry>, k: nat)
    requires ValidSpec(sizes, spec) && Digits(d, sizes) && k < |spec|
    ensures Shard(d, sizes, spec)[k] < Blocks(sizes, spec[k])
  {
    EncodeBelow(Pick(d, AxesOf(spec[k])), Pick(sizes, AxesOf(spec[k])));
  }

  /** Sets the coordinates named by `axes` to the given digits. */
  function Place(d: seq<nat>, axes: seq<Axis>, digits: seq<nat>): (r: seq<nat>)
    requires |axes| == |digits| && forall i :: 0 <= i < |axes| ==> axes[i] < |d|
    requires forall i, j :: 0 <= i < j < |axes| ==> axes[i] != axes[j]
    ensures |r| == |d|
    ensures forall i :: 0 <= i < |axes| ==> r[axes[i]] == digits[i]
    ensures forall a :: 0 <= a < |d| && a !in axes ==> r[a] == d[a]
  {
    if axes == [] then d
    else Place(d, axes[..|axes| - 1], digits[..|digits| - 1])[axes[|axes| - 1] := digits[|digits| - 1]]
  }

  /** Setting the axes of one entry leaves the blocks of entries without those axes alone. */
  lemma PlaceKeepsBlock(d: seq<nat>, sizes: seq<nat>, f: Entry, digits: seq<nat>, e: Entry)
    requires |d| == |sizes| && ValidEntry(sizes, f) && |AxesOf(f)| == |digits|
    requires ValidEntry(sizes, e) && Disjoint(e, f)
    ensures Block(Place(d, AxesOf(f), digits), sizes, e) == Block(d, sizes, e)
  {
    hide Encode;
    forall i | 0 <= i < |AxesOf(e)| ensures Place(d, AxesOf(f), digits)[AxesOf(e)[i]] == d[AxesOf(e)[i]] {
      assert AxesOf(e)[i] in AxesOf(e);
    }
    assert Pick(Place(d, AxesOf(f), digits), AxesOf(e)) == Pick(d, AxesOf(e));
  }

  lemma PlaceInMesh(d: seq<nat>, sizes: seq<nat>, axes: seq<Axis>, digits: seq<nat>)
    requires Digits(d, sizes) && |axes| == |digits| && forall i :: 0 <= i < |axes| ==> axes[i] < |d|
    requires forall i, j :: 0 <= i < j < |axes| ==> axes[i] != axes[j]
    requires Digits(digits, Pick(sizes, axes))
    ensures Digits(Place(d, axes, digits), sizes)
  {
    forall a | 0 <= a < |sizes| ensures Place(d, axes, digits)[a] < sizes[a] {
      if a in axes {
        var i :| 0 <= i < |axes| && axes[i] == a;
        assert digits[i] < Pick(sizes, axes)[i];
      }
    }
  }

  /** Every combination of block indices is the shard of some device, so no part of the array is missing. */
  lemma {:induction false} EveryShardHeld(sizes: seq<nat>, spec: seq<Entry>, shard: seq<nat>) returns (d: seq<nat>)
    requires ValidSpec(sizes, spec) && ValidMesh(sizes) && |shard| == |spec|
    requires forall k :: 0 <= k < |spec| ==> shard[k] < Blocks(sizes, spec[k])
    ensures Digits(d, sizes) && Shard(d, sizes, spec) == shard
  {
    if spec == [] {
      d := seq(|sizes|, i => 0);
    } else {
      hide Decode, Place, Block;
      var n := |spec| - 1;
      var axes := AxesOf(spec[n]);
      var before := EveryShardHeld(sizes, spec[..n], shard[..n]);
      var digits := Decode(shard[n], Pick(sizes, axes));
      DecodeEncode(shard[n], Pick(sizes, axes));
      d := Place(before, axes, digits);
      hide Encode, Digits, Disjoint;
      LastPlaced(before, sizes, spec, shard, digits);
      ShardIs(d, sizes, spec, shard);
    }
  }

  /** Placing the last block's digits gives that block and keeps the others. */
  lemma LastPlaced(before: seq<nat>, sizes: seq<nat>, spec: seq<Entry>, shard: seq<nat>, digits: seq<nat>)
    requires ValidSpec(sizes, spec) && spec != [] && |shard| == |spec| && Digits(before, sizes)
    requires var n := |spec| - 1; Shard(before, sizes, spec[..n]) == shard[..n]
    requires var sub := Pick(sizes, AxesOf(spec[|spec| - 1]));
             |digits| == |sub| && Digits(digits, sub) && Encode(digits, sub) == shard[|spec| - 1]
    ensures var d := Place(before, AxesOf(spec[|spec| - 1]), digits);
            Digits(d, sizes) && forall k :: 0 <= k < |spec| ==> Block(d, sizes, spec[k]) == shard[k]
  {
    hide Place, Block, Encode;
    var n := |spec| - 1;
    PlaceInMesh(before, sizes, AxesOf(spec[n]), digits);
    PlacedBlock(before, sizes, spec[n], digits);
    forall k | 0 <= k < n ensures Block(Place(before, AxesOf(spec[n]), digits), sizes, spec[k]) == shard[k] {
      assert Shard(before, sizes, spec[..n])[k] == shard[..n][k];
      PlaceKeepsBlock(before, sizes, spec[n], digits, spec[k]);
    }
  }

  lemma ShardIs(d: seq<nat>, sizes: seq<nat>, spec: seq<Entry>, shard: seq<nat>)
    requires ValidSpec(sizes, spec) && |d| == |sizes| && |shard| == |spec|
    requires forall k :: 0 <= k < |spec| ==> Block(d, sizes, spec[k]) == shard[k]
    ensures Shard(d, sizes, spec) == shard
  {
    hide Block, Disjoint, ValidEntry;
  }

  lemma PlacedBlock(d: seq<nat>, sizes: seq<nat>, e: Entry, digits: seq<nat>)
    requires |d| == |sizes| && ValidEntry(sizes, e) && |digits| == |AxesOf(e)|
    ensures Block(Place(d, AxesOf(e), digits), sizes, e) == Encode(digits, Pick(sizes, AxesOf(e)))
  {
    hide Encode;
    assert Pick(Place(d, AxesOf(e), digits), AxesOf(e)) == digits;
  }
}
