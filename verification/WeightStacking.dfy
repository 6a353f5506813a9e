/** Assembling a parameter from nested lists of source weights: stack with the new axes leading, then move them into
    place. Elements are opaque; loading a leaf's weights and running its hooks is a function parameter. */
module WeightStacking {
  import opened Wrappers
  import opened Sequences
  import opened TensorStack
  import opened MoveAxis
  import Text

  /** A leaf names one source weight, or several that the hook fuses; a node is one level of nesting. */
  datatype Keys = Leaf(names: seq<string>) | Node(subs: seq<Keys>)

  /** `nesting_depth`, which follows first elements; None where it indexes an empty list. */
  function NestingDepth(keys: Keys): Option<nat> {
    match keys
    case Leaf(_) => Some(0)
    case Node(subs) =>
      if subs == [] then None
      else
        var inner := NestingDepth(subs[0]);
        if inner.None? then None else Some(inner.value + 1)
  }

  /** Where the stacked axes land; None where an expert axis could not lead. */
  function StackedAxes(mtKey: string, paramScanAxis: nat, depth: nat): Option<seq<nat>> {
    if Text.Contains(mtKey, "-local_layers") && !Text.Contains(mtKey, "layers_remainder-") then
      if depth == 2 then Some([paramScanAxis, paramScanAxis + 1])
      else if paramScanAxis == 0 then None
      else Some([0, paramScanAxis, paramScanAxis + 1])
    else Some(Upto(depth))
  }

  lemma StackedAxesIncrease(mtKey: string, paramScanAxis: nat, depth: nat)
    requires StackedAxes(mtKey, paramScanAxis, depth).Some?
    ensures Increasing(StackedAxes(mtKey, paramScanAxis, depth).value)
  {
  }

  // ---- gathering ----

  function StackLeading(parts: seq<Tensor>, onDevice: bool): Option<Tensor> {
    if onDevice then BinaryChunkedStack(parts, 0) else StackAt(parts, 0)
  }

  function Gather(keys: Keys, load: seq<string> -> Tensor, onDevice: bool): Option<Tensor>
    decreases keys, 1
  {
    match keys
    case Leaf(names) => Some(load(names))
    case Node(subs) =>
      var parts := GatherAll(subs, load, onDevice);
      if parts.None? then None else StackLeading(parts.value, onDevice)
  }

  function GatherAll(subs: seq<Keys>, load: seq<string> -> Tensor, onDevice: bool): (r: Option<seq<Tensor>>)
    ensures r.Some? ==> |r.value| == |subs|
    decreases subs, 0
  {
    if subs == [] then Some([])
    else
      var first, rest := Gather(subs[0], load, onDevice), GatherAll(subs[1..], load, onDevice);
      if first.None? || rest.None? then None else Some([first.value] + rest.value)
  }

  /** All leaves lie `depth` levels down. */
  ghost predicate Uniform(keys: Keys, depth: nat)
    decreases keys
  {
    match keys
    case Leaf(_) => depth == 0
    case Node(subs) => depth > 0 && forall i :: 0 <= i < |subs| ==> Uniform(subs[i], depth - 1)
  }

  lemma {:induction false} DepthOfUniform(keys: Keys, depth: nat)
    requires Uniform(keys, depth) && NestingDepth(keys).Some?
    ensures NestingDepth(keys).value == depth
  {
    match keys
    case Leaf(_) =>
    case Node(subs) => DepthOfUniform(subs[0], depth - 1);
  }

  /** The leaf reached by a path of positions. */
  function Select(keys: Keys, path: seq<nat>): Option<seq<string>>
    decreases keys
  {
    match keys
    case Leaf(names) => if path == [] then Some(names) else None
    case Node(subs) => if path == [] || path[0] >= |subs| then None else Select(subs[path[0]], path[1..])
  }

  lemma {:induction false} GatherAllAt(subs: seq<Keys>, load: seq<string> -> Tensor, onDevice: bool, i: nat)
    requires GatherAll(subs, load, onDevice).Some? && i < |subs|
    ensures Gather(subs[i], load, onDevice) == Some(GatherAll(subs, load, onDevice).value[i])
  {
    if i > 0 { GatherAllAt(subs[1..], load, onDevice, i - 1); }
  }

  lemma {:induction false} GatherAllFails(subs: seq<Keys>, load: seq<string> -> Tensor, onDevice: bool)
    requires GatherAll(subs, load, onDevice).None?
    ensures exists i :: 0 <= i < |subs| && Gather(subs[i], load, onDevice).None?
  {
    if Gather(subs[0], load, onDevice).Some? {
      GatherAllFails(subs[1..], load, onDevice);
      var i :| 0 <= i < |subs| - 1 && Gather(subs[1..][i], load, onDevice).None?;
      assert Gather(subs[i + 1], load, onDevice).None?;
    }
  }

  /** Gathering on the device, by halves, gives what gathering on the host gives. */
  lemma {:induction false} GatherOnDevice(keys: Keys, load: seq<string> -> Tensor)
    ensures SameResult(Gather(keys, load, true), Gather(keys, load, false))
    decreases keys
  {
    match keys
    case Leaf(_) =>
    case Node(subs) =>
      hide SameResult, BinaryChunkedStack, StackAt;
      forall i | 0 <= i < |subs| ensures SameResult(Gather(subs[i], load, true), Gather(subs[i], load, false)) {
        GatherOnDevice(subs[i], load);
      }
      GatherAllOnDevice(subs, load);
      var device, host := GatherAll(subs, load, true), GatherAll(subs, load, false);
      if device.Some? {
        ChunkedIsStack(device.value, 0);
        StackOfSame(device.value, host.value, 0);
        SameResultTrans(BinaryChunkedStack(device.value, 0), StackAt(device.value, 0), StackAt(host.value, 0));
      } else {
        NoneSame();
      }
  }

  ghost predicate SameParts(a: Option<seq<Tensor>>, b: Option<seq<Tensor>>) {
    && a.Some? == b.Some?
    && (a.Some? ==> |a.value| == |b.value| && forall i :: 0 <= i < |a.value| ==> Same(a.value[i], b.value[i]))
  }

  lemma {:induction false} GatherAllOnDevice(subs: seq<Keys>, load: seq<string> -> Tensor)
    requires forall i :: 0 <= i < |subs| ==> SameResult(Gather(subs[i], load, true), Gather(subs[i], load, false))
    ensures SameParts(GatherAll(subs, load, true), GatherAll(subs, load, false))
  {
    hide Gather, Same;
    if subs != [] {
      assert SameResult(Gather(subs[0], load, true), Gather(subs[0], load, false));
      forall i | 0 <= i < |subs| - 1
        ensures SameResult(Gather(subs[1..][i], load, true), Gather(subs[1..][i], load, false))
      {
        assert subs[1..][i] == subs[i + 1];
      }
      GatherAllOnDevice(subs[1..], load);
    }
  }

  lemma NoneSame()
    ensures SameResult(None, None)
  {
  }

  lemma SameResultTrans(a: Option<Tensor>, b: Option<Tensor>, c: Option<Tensor>)
    requires SameResult(a, b) && SameResult(b, c)
    ensures SameResult(a, c)
  {
  }

  // ---- what was gathered ----

  /** A full grid of leaves: `dims[l]` entries, at least one, in every list at level l, and one shape for all leaves. */
  ghost predicate Grid(keys: Keys, dims: seq<nat>, load: seq<string> -> Tensor, shape: seq<nat>)
    decreases keys
  {
    match keys
    case Leaf(names) => dims == [] && load(names).shape == shape
    case Node(subs) =>
      && dims != [] && |subs| == dims[0] && subs != []
      && forall i :: 0 <= i < |subs| ==> Grid(subs[i], dims[1..], load, shape)
  }

  /** Gathering yields a given shape exactly when the names form that grid of equally shaped leaves. */
  lemma {:induction false} GatheredIff(keys: Keys, dims: seq<nat>, load: seq<string> -> Tensor, shape: seq<nat>)
    requires Uniform(keys, |dims|)
    ensures var g := Gather(keys, load, false);
            Grid(keys, dims, load, shape) <==> g.Some? && g.value.shape == dims + shape
    decreases keys
  {
    match keys
    case Leaf(_) =>
    case Node(subs) =>
      forall i | 0 <= i < |subs|
        ensures var g := Gather(subs[i], load, false);
                Grid(subs[i], dims[1..], load, shape) <==> g.Some? && g.value.shape == dims[1..] + shape
      {
        GatheredIff(subs[i], dims[1..], load, shape);
      }
      GatheredNode(subs, dims, load, shape);
  }

  lemma GatheredNode(subs: seq<Keys>, dims: seq<nat>, load: seq<string> -> Tensor, shape: seq<nat>)
    requires dims != []
    ensures var g := Gather(Node(subs), load, false);
            g.Some? && g.value.shape == dims + shape <==>
            && subs != [] && |subs| == dims[0]
            && forall i :: 0 <= i < |subs| ==>
                 Gather(subs[i], load, false).Some? && Gather(subs[i], load, false).value.shape == dims[1..] + shape
  {
    var parts := GatherAll(subs, load, false);
    if parts.None? {
      GatherAllFails(subs, load, false);
    } else {
      forall i | 0 <= i < |subs| ensures Gather(subs[i], load, false) == Some(parts.value[i]) {
        GatherAllAt(subs, load, false, i);
      }
      assert dims + shape == [dims[0]] + (dims[1..] + shape);
      if subs != [] {
        assert InsertAt(parts.value[0].shape, 0, |subs|) == [|subs|] + parts.value[0].shape;
        assert ([|subs|] + parts.value[0].shape)[1..] == parts.value[0].shape;
        assert (dims + shape)[1..] == dims[1..] + shape;
      }
    }
  }

  /** Each element of the gathered tensor is an element of the leaf its leading coordinates select. */
  lemma {:induction false} GatheredElement(keys: Keys, depth: nat, load: seq<string> -> Tensor, index: seq<nat>)
    requires Uniform(keys, depth) && Gather(keys, load, false).Some?
    requires InShape(index, Gather(keys, load, false).value.shape)
    ensures depth <= |index| && Select(keys, index[..depth]).Some?
    ensures var t, leaf := Gather(keys, load, false).value, load(Select(keys, index[..depth]).value);
            && t.shape[depth..] == leaf.shape && InShape(index[depth..], leaf.shape)
            && t.at(index) == leaf.at(index[depth..])
    decreases keys
  {
    match keys
    case Leaf(_) =>
      assert index[..0] == [] && index[0..] == index;
    case Node(subs) =>
      var parts, t := GatherAll(subs, load, false).value, Gather(keys, load, false).value;
      StackedInside(parts[0].shape, 0, |parts|, index);
      var i := index[0];
      assert RemoveAt(index, 0) == index[1..];
      assert t.shape[1..] == parts[0].shape == parts[i].shape;
      GatherAllAt(subs, load, false, i);
      GatheredElement(subs[i], depth - 1, load, index[1..]);
      assert index[..depth][1..] == index[1..][..depth - 1];
      assert index[1..][depth - 1..] == index[depth..];
      assert t.shape[depth..] == parts[i].shape[depth - 1..];
  }

  // ---- several axes ----

  /** The hooked tensor of a leaf, for slices of one shape. */
  function Hooked(load: (seq<string>, seq<nat>) -> Tensor, slice: seq<nat>): seq<string> -> Tensor {
    (names: seq<string>) => load(names, slice)
  }

  /** `moveaxis`, which also refuses as many targets as there are not sources. */
  function Place(t: Tensor, depth: nat, axes: seq<nat>): Option<Tensor>
    requires Increasing(axes)
  {
    if axes == Upto(depth) then Some(t)
    else if |axes| != depth then None
    else MoveLeading(t, axes)
  }

  /** A parameter assembled from a nested list; None where the code raises. */
  function BuildMultiAxis(keys: Keys, load: (seq<string>, seq<nat>) -> Tensor, target: seq<nat>,
                          mtKey: string, paramScanAxis: nat, onDevice: bool): Option<Tensor>
  {
    match NestingDepth(keys)
    case None => None
    case Some(depth) =>
      match StackedAxes(mtKey, paramScanAxis, depth)
      case None => None
      case Some(axes) =>
        StackedAxesIncrease(mtKey, paramScanAxis, depth);
        match Gather(keys, Hooked(load, Without(target, axes)), onDevice)
        case None => None
        case Some(stacked) => Place(stacked, depth, axes)
  }

  /** With leading axes nothing moves: the coordinates on them are a prefix and the others the rest. */
  lemma LeadingAxes<T>(s: seq<T>, depth: nat)
    requires depth <= |s|
    ensures Pick(s, Upto(depth)) == s[..depth] && Without(s, Upto(depth)) == s[depth..]
  {
    hide Without;
    WithoutBeyond(s, Upto(depth), depth);
    RemoveAxesIsWithout(s[..depth], Upto(depth));
    assert Without(s[..depth], Upto(depth)) == [];
  }

  /** Placing gathered tensors: shape and elements by coordinates on the axes and off them. */
  lemma PlacedElement(t: Tensor, depth: nat, axes: seq<nat>, index: seq<nat>)
    requires Increasing(axes) && Place(t, depth, axes).Some? && depth <= |t.shape|
    requires InShape(index, Place(t, depth, axes).value.shape)
    ensures |axes| == depth && InRank(axes, |index|)
    ensures var from := Pick(index, axes) + Without(index, axes);
            InShape(from, t.shape) && Place(t, depth, axes).value.at(index) == t.at(from)
  {
    hide Without;
    if axes == Upto(depth) {
      LeadingAxes(index, depth);
      assert index == index[..depth] + index[depth..];
    } else {
      MovedElement(t, axes, index);
    }
  }

  lemma PlacedShape(t: Tensor, depth: nat, axes: seq<nat>)
    requires Increasing(axes) && Place(t, depth, axes).Some? && depth <= |t.shape|
    ensures var r := Place(t, depth, axes).value;
            && |axes| == depth && InRank(axes, |r.shape|)
            && Pick(r.shape, axes) == t.shape[..depth] && Without(r.shape, axes) == t.shape[depth..]
  {
    hide Without;
    if axes == Upto(depth) {
      LeadingAxes(t.shape, depth);
    } else {
      MovedShape(t, axes);
      var r := MoveLeading(t, axes).value;
      assert Pick(r.shape, axes) == t.shape[..depth] && Without(r.shape, axes) == t.shape[depth..];
    }
  }

  lemma GatheredRank(keys: Keys, depth: nat, load: seq<string> -> Tensor)
    requires Uniform(keys, depth) && Gather(keys, load, false).Some?
    ensures depth <= |Gather(keys, load, false).value.shape|
    decreases keys
  {
    match keys
    case Leaf(_) =>
    case Node(subs) =>
      GatherAllAt(subs, load, false, 0);
      GatheredRank(subs[0], depth - 1, load);
  }

  /** The stacking equation: every element of the assembled parameter is the element of the source its coordinates on
      the stacked axes select, read at the remaining coordinates. */
  lemma MultiAxisEquation(keys: Keys, depth: nat, load: (seq<string>, seq<nat>) -> Tensor, target: seq<nat>,
                          mtKey: string, paramScanAxis: nat, index: seq<nat>)
    requires Uniform(keys, depth)
    requires BuildMultiAxis(keys, load, target, mtKey, paramScanAxis, false).Some?
    requires InShape(index, BuildMultiAxis(keys, load, target, mtKey, paramScanAxis, false).value.shape)
    ensures StackedAxes(mtKey, paramScanAxis, depth).Some?
    ensures var axes := StackedAxes(mtKey, paramScanAxis, depth).value;
            && InRank(axes, |index|) && Select(keys, Pick(index, axes)).Some?
            && var leaf := load(Select(keys, Pick(index, axes)).value, Without(target, axes));
               && InShape(Without(index, axes), leaf.shape)
               && BuildMultiAxis(keys, load, target, mtKey, paramScanAxis, false).value.at(index)
                  == leaf.at(Without(index, axes))
  {
    hide Without, Gather, Select, Place, InShape;
    DepthOfUniform(keys, depth);
    StackedAxesIncrease(mtKey, paramScanAxis, depth);
    var axes := StackedAxes(mtKey, paramScanAxis, depth).value;
    var hooked := Hooked(load, Without(target, axes));
    var t := Gather(keys, hooked, false).value;
    GatheredRank(keys, depth, hooked);
    PlacedElement(t, depth, axes, index);
    var from := Pick(index, axes) + Without(index, axes);
    GatheredElement(keys, depth, hooked, from);
    assert from[..depth] == Pick(index, axes) && from[depth..] == Without(index, axes);
  }

  /** A parameter of local layers that a block scan repeats. */
  predicate InBlockScan(mtKey: string) {
    Text.Contains(mtKey, "-local_layers") && !Text.Contains(mtKey, "layers_remainder-")
  }

  /** Between two axes, and before the first, nothing is left out. */
  lemma {:induction false} WithoutGap<T>(s: seq<T>, axes: seq<nat>, lo: nat)
    requires lo <= |s| && forall a :: a in axes ==> a < lo || a >= |s|
    ensures Without(s, axes) == Without(s[..lo], axes) + s[lo..]
    decreases |s|
  {
    if lo < |s| {
      WithoutGap(s[..|s| - 1], axes, lo);
      assert s[..|s| - 1][..lo] == s[..lo];
      assert s[..|s| - 1][lo..] + [s[|s| - 1]] == s[lo..];
    } else {
      assert s[..lo] == s;
    }
  }

  lemma WithoutNext<T>(s: seq<T>, axes: seq<nat>, p: nat)
    requires p < |s| && p in axes
    ensures Without(s[..p + 1], axes) == Without(s[..p], axes)
  {
    assert s[..p + 1][..p] == s[..p];
  }

  /** Two neighbouring axes taken out, the others below `lo`. */
  lemma WithoutPair<T>(s: seq<T>, axes: seq<nat>, lo: nat, p: nat)
    requires lo <= p && p + 1 < |s| && p in axes && p + 1 in axes
    requires forall a :: a in axes ==> a < lo || a == p || a == p + 1
    ensures Without(s, axes) == Without(s[..lo], axes) + s[lo..p] + s[p + 2..]
  {
    hide Without;
    WithoutBeyond(s, axes, p + 2);
    WithoutNext(s, axes, p + 1);
    WithoutNext(s, axes, p);
    WithoutGap(s[..p], axes, lo);
    assert s[..p][..lo] == s[..lo] && s[..p][lo..] == s[lo..p];
  }

  lemma WithoutFirst<T>(s: seq<T>, axes: seq<nat>)
    requires s != [] && 0 in axes
    ensures Without(s[..1], axes) == []
  {
    WithoutNext(s, axes, 0);
    WithoutEmpty<T>(s, axes);
  }

  lemma WithoutEmpty<T>(s: seq<T>, axes: seq<nat>)
    ensures Without(s[..0], axes) == []
  {
  }

  /** In a block scan, block and local layer stand at the scan axis and behind it: the element at ..., b, l, ... is that of
      the source of block b and local layer l. */
  lemma BlockScanElement(keys: Keys, load: (seq<string>, seq<nat>) -> Tensor, target: seq<nat>, mtKey: string, p: nat,
                         index: seq<nat>)
    requires Uniform(keys, 2) && InBlockScan(mtKey)
    requires BuildMultiAxis(keys, load, target, mtKey, p, false).Some?
    requires InShape(index, BuildMultiAxis(keys, load, target, mtKey, p, false).value.shape)
    ensures p + 1 < |index| && Select(keys, [index[p], index[p + 1]]).Some?
    ensures var leaf := load(Select(keys, [index[p], index[p + 1]]).value, Without(target, [p, p + 1]));
            BuildMultiAxis(keys, load, target, mtKey, p, false).value.at(index) == leaf.at(index[..p] + index[p + 2..])
  {
    hide BuildMultiAxis, Without, Select, InShape, Text.Contains;
    MultiAxisEquation(keys, 2, load, target, mtKey, p, index);
    assert StackedAxes(mtKey, p, 2).value == [p, p + 1];
    var axes := [p, p + 1];
    assert axes[0] == p && axes[1] == p + 1;
    WithoutPair(index, axes, 0, p);
    WithoutEmpty(index, axes);
    assert [] + index[0..p] == index[..p];
    assert Pick(index, axes) == [index[p], index[p + 1]];
  }

  /** With experts outside, the expert axis leads; an unscanned leading axis cannot be had then, and the build fails. */
  lemma ExpertBlockElement(keys: Keys, load: (seq<string>, seq<nat>) -> Tensor, target: seq<nat>, mtKey: string, p: nat,
                           index: seq<nat>)
    requires Uniform(keys, 3) && InBlockScan(mtKey)
    requires BuildMultiAxis(keys, load, target, mtKey, p, false).Some?
    requires InShape(index, BuildMultiAxis(keys, load, target, mtKey, p, false).value.shape)
    ensures 0 < p && p + 1 < |index| && Select(keys, [index[0], index[p], index[p + 1]]).Some?
    ensures var leaf := load(Select(keys, [index[0], index[p], index[p + 1]]).value, Without(target, [0, p, p + 1]));
            BuildMultiAxis(keys, load, target, mtKey, p, false).value.at(index) == leaf.at(index[1..p] + index[p + 2..])
  {
    hide BuildMultiAxis, Without, Select, InShape, Text.Contains;
    MultiAxisEquation(keys, 3, load, target, mtKey, p, index);
    assert StackedAxes(mtKey, p, 3).value == [0, p, p + 1];
    var axes := [0, p, p + 1];
    assert axes[0] == 0 && axes[1] == p && axes[2] == p + 1;
    WithoutPair(index, axes, 1, p);
    WithoutFirst(index, axes);
    assert [] + index[1..p] == index[1..p];
    assert Pick(index, axes) == [index[0], index[p], index[p + 1]];
  }

  /** Everywhere else the stacked axes lead, outermost first. */
  lemma LeadingElement(keys: Keys, depth: nat, load: (seq<string>, seq<nat>) -> Tensor, target: seq<nat>, mtKey: string,
                       p: nat, index: seq<nat>)
    requires Uniform(keys, depth) && !InBlockScan(mtKey)
    requires BuildMultiAxis(keys, load, target, mtKey, p, false).Some?
    requires InShape(index, BuildMultiAxis(keys, load, target, mtKey, p, false).value.shape)
    ensures depth <= |index| && Select(keys, index[..depth]).Some?
    ensures var leaf := load(Select(keys, index[..depth]).value, Without(target, Upto(depth)));
            BuildMultiAxis(keys, load, target, mtKey, p, false).value.at(index) == leaf.at(index[depth..])
  {
    hide BuildMultiAxis, Without, Select, InShape, Text.Contains;
    MultiAxisEquation(keys, depth, load, target, mtKey, p, index);
    assert StackedAxes(mtKey, p, depth).value == Upto(depth);
    assert depth > 0 ==> Upto(depth)[depth - 1] < |index|;
    LeadingAxes(index, depth);
  }

  /** The parameter has the wanted shape exactly when the names form a grid with the wanted dimensions on the stacked
      axes, and every hooked source has the slice shape it was asked for. */
  lemma TargetShapeIff(keys: Keys, depth: nat, load: (seq<string>, seq<nat>) -> Tensor, target: seq<nat>,
                       mtKey: string, paramScanAxis: nat)
    requires Uniform(keys, depth) && NestingDepth(keys).Some? && StackedAxes(mtKey, paramScanAxis, depth).Some?
    requires var axes := StackedAxes(mtKey, paramScanAxis, depth).value;
             |axes| == depth && InRank(axes, |target|)
    ensures var axes := StackedAxes(mtKey, paramScanAxis, depth).value;
            var built := BuildMultiAxis(keys, load, target, mtKey, paramScanAxis, false);
            built.Some? && built.value.shape == target <==>
            Grid(keys, Pick(target, axes), Hooked(load, Without(target, axes)), Without(target, axes))
  {
    hide Without, Gather, Grid;
    DepthOfUniform(keys, depth);
    StackedAxesIncrease(mtKey, paramScanAxis, depth);
    var axes := StackedAxes(mtKey, paramScanAxis, depth).value;
    var dims, slice := Pick(target, axes), Without(target, axes);
    GatheredIff(keys, dims, Hooked(load, slice), slice);
    var g := Gather(keys, Hooked(load, slice), false);
    if g.Some? {
      GatheredRank(keys, depth, Hooked(load, slice));
      PlacedTo(g.value, depth, axes, target);
    }
  }

  /** Placement reaches a shape exactly when it starts from the coordinates of that shape. */
  lemma PlacedTo(t: Tensor, depth: nat, axes: seq<nat>, target: seq<nat>)
    requires Increasing(axes) && |axes| == depth <= |t.shape| && InRank(axes, |target|)
    ensures Place(t, depth, axes).Some? && Place(t, depth, axes).value.shape == target <==>
            t.shape == Pick(target, axes) + Without(target, axes)
  {
    hide Without;
    RemoveAxesIsWithout(target, axes);
    if Place(t, depth, axes).Some? {
      PlacedShape(t, depth, axes);
      PartsMeet(Place(t, depth, axes).value.shape, t.shape, target, axes);
    }
  }

  /** Two shapes are equal when their coordinates on and off the axes join to the same sequence. */
  lemma PartsMeet(shape: seq<nat>, joined: seq<nat>, target: seq<nat>, axes: seq<nat>)
    requires Increasing(axes) && InRank(axes, |shape|) && InRank(axes, |target|) && |axes| <= |joined|
    requires Pick(shape, axes) == joined[..|axes|] && Without(shape, axes) == joined[|axes|..]
    ensures shape == target <==> joined == Pick(target, axes) + Without(target, axes)
  {
    hide Without;
    var a, b := Pick(shape, axes), Without(shape, axes);
    var c, d := Pick(target, axes), Without(target, axes);
    assert joined == a + b;
    if joined == c + d {
      SplitHeads(a, b, c, d);
      RemoveAxesIsWithout(shape, axes);
      RemoveAxesIsWithout(target, axes);
      SplitDetermines(shape, target, axes);
    }
  }

  /** Assembling on the device gives the same parameter as assembling on the host, and fails on the same inputs. */
  lemma OnDeviceAgrees(keys: Keys, load: (seq<string>, seq<nat>) -> Tensor, target: seq<nat>,
                       mtKey: string, paramScanAxis: nat)
    ensures SameResult(BuildMultiAxis(keys, load, target, mtKey, paramScanAxis, true),
                       BuildMultiAxis(keys, load, target, mtKey, paramScanAxis, false))
  {
    hide Gather, Without, NestingDepth;
    if NestingDepth(keys).Some? && StackedAxes(mtKey, paramScanAxis, NestingDepth(keys).value).Some? {
      var depth := NestingDepth(keys).value;
      StackedAxesIncrease(mtKey, paramScanAxis, depth);
      var axes := StackedAxes(mtKey, paramScanAxis, depth).value;
      var hooked := Hooked(load, Without(target, axes));
      GatherOnDevice(keys, hooked);
      if Gather(keys, hooked, true).Some? {
        PlaceSame(Gather(keys, hooked, true).value, Gather(keys, hooked, false).value, depth, axes);
      }
    }
  }

  lemma PlaceSame(t: Tensor, u: Tensor, depth: nat, axes: seq<nat>)
    requires Same(t, u) && Increasing(axes)
    ensures SameResult(Place(t, depth, axes), Place(u, depth, axes))
  {
    hide MoveOrder, Without;
    if axes != Upto(depth) && Place(t, depth, axes).Some? {
      var a, b := MoveLeading(t, axes).value, MoveLeading(u, axes).value;
      forall index | InShape(index, a.shape) ensures a.at(index) == b.at(index) {
        MovedElement(t, axes, index);
        MovedElement(u, axes, index);
      }
    }
  }

  // ---- one axis ----

  /** Stacking directly at an axis is stacking in front and moving the new axis there. */
  lemma DirectPlacement(parts: seq<Tensor>, axis: nat)
    ensures SameResult(StackAt(parts, axis), StackThenPlace(parts, axis))
  {
    hide Without, MoveOrder, InShape, StackedElement;
    if axis == 0 {
      assert [axis] == Upto(1);
    } else {
      assert [axis][0] != Upto(1)[0];
    }
    if StackAt(parts, 0).Some? {
      var t, shape := StackAt(parts, 0).value, parts[0].shape;
      assert t.shape == [|parts|] + shape;
      assert InRank([axis], |t.shape|) <==> axis <= |shape|;
      if 0 < axis <= |shape| {
        DirectlyPlaced(parts, axis);
      }
    }
  }

  lemma DirectShape(parts: seq<Tensor>, axis: nat)
    requires parts != [] && SameShapes(parts) && 0 < axis <= |parts[0].shape|
    ensures MoveLeading(StackAt(parts, 0).value, [axis]).Some?
    ensures MoveLeading(StackAt(parts, 0).value, [axis]).value.shape == StackAt(parts, axis).value.shape
  {
    hide Without, MoveOrder, StackedElement;
    var shape, t, direct := parts[0].shape, StackAt(parts, 0).value, StackAt(parts, axis).value.shape;
    MovedShape(t, [axis]);
    var r := MoveLeading(t, [axis]).value.shape;
    assert t.shape == [|parts|] + shape;
    WithoutOne(direct, axis);
    assert RemoveAt(direct, axis) == shape;
    SplitHeads(Pick(r, [axis]), Without(r, [axis]), [|parts|], shape);
    assert Pick(direct, [axis]) == [|parts|];
    SplitDetermines(r, direct, [axis]);
  }

  lemma SplitHeads<T>(a: seq<T>, b: seq<T>, c: seq<T>, d: seq<T>)
    requires a + b == c + d && |a| == |c|
    ensures a == c && b == d
  {
    assert a == (a + b)[..|a|] && b == (a + b)[|a|..] && c == (c + d)[..|c|] && d == (c + d)[|c|..];
  }

  lemma DirectlyPlaced(parts: seq<Tensor>, axis: nat)
    requires parts != [] && SameShapes(parts) && 0 < axis <= |parts[0].shape|
    ensures StackThenPlace(parts, axis).Some?
    ensures Same(StackAt(parts, axis).value, StackThenPlace(parts, axis).value)
  {
    hide Without, MoveOrder, StackedElement, MoveLeading;
    assert [axis] != Upto(1) by { assert [axis][0] != Upto(1)[0]; }
    DirectShape(parts, axis);
    var t, direct := StackAt(parts, 0).value, StackAt(parts, axis).value;
    var r := MoveLeading(t, [axis]).value;
    forall index | InShape(index, direct.shape) ensures direct.at(index) == r.at(index) {
      StackedInside(parts[0].shape, axis, |parts|, index);
      MovedElement(t, [axis], index);
      PlacedFrom(parts, axis, index);
    }
  }

  function StackThenPlace(parts: seq<Tensor>, axis: nat): Option<Tensor> {
    var stacked := StackAt(parts, 0);
    if stacked.None? then None else Place(stacked.value, 1, [axis])
  }

  lemma WithoutOne<T>(s: seq<T>, p: nat)
    requires p < |s|
    ensures Without(s, [p]) == RemoveAt(s, p)
  {
    RemoveAxesIsWithout(s, [p]);
    assert RemoveAxes(s, [p]) == RemoveAxes(RemoveAt(s, p), [p][..0]);
  }

  lemma PlacedFrom(parts: seq<Tensor>, axis: nat, index: seq<nat>)
    requires axis < |index|
    ensures StackedElement(parts, 0, Pick(index, [axis]) + Without(index, [axis]))
            == StackedElement(parts, axis, index)
  {
    WithoutOne(index, axis);
    var from := Pick(index, [axis]) + Without(index, [axis]);
    assert RemoveAt(from, 0) == Without(index, [axis]);
  }

  /** The axis a list of weights is stacked along. */
  function SingleAxis(scanLayers: bool, leads: bool, paramScanAxis: nat, rank: nat): nat {
    if scanLayers && !leads && rank > paramScanAxis then paramScanAxis else 0
  }

  /** Names of the parameters whose stacked axis always leads. */
  predicate AxisLeads(mtKey: string) {
    || Text.Contains(mtKey, "MoEBiasVar") || Text.Contains(mtKey, "Tid2EidVar")
    || (Text.Contains(mtKey, "MoeBlock") && !Text.Contains(mtKey, "scanned_blocks")
        && !Text.Contains(mtKey, "moe_layers-") && !Text.Contains(mtKey, "decoder-layers-"))
  }

  /** The hooked sources of a flat list. */
  function Loaded(names: seq<seq<string>>, load: (seq<string>, seq<nat>) -> Tensor, slice: seq<nat>): (r: seq<Tensor>)
    ensures |r| == |names| && forall i :: 0 <= i < |names| ==> r[i] == load(names[i], slice)
  {
    seq(|names|, i requires 0 <= i < |names| => load(names[i], slice))
  }

  /** The element equation for one stacked axis. */
  ghost predicate ElementsFrom(r: Tensor, names: seq<seq<string>>, load: (seq<string>, seq<nat>) -> Tensor,
                               slice: seq<nat>, axis: nat)
  {
    forall index :: InShape(index, r.shape) ==>
      && axis < |index| && index[axis] < |names|
      && r.at(index) == load(names[index[axis]], slice).at(Without(index, [axis]))
  }

  lemma StackedElementsFrom(names: seq<seq<string>>, load: (seq<string>, seq<nat>) -> Tensor, slice: seq<nat>, axis: nat)
    requires StackAt(Loaded(names, load, slice), axis).Some?
    ensures ElementsFrom(StackAt(Loaded(names, load, slice), axis).value, names, load, slice, axis)
  {
    hide Without, SameShapes;
    var parts := Loaded(names, load, slice);
    var r := StackAt(parts, axis).value;
    forall index: seq<nat> | InShape(index, r.shape)
      ensures axis < |index| && index[axis] < |names|
      ensures r.at(index) == load(names[index[axis]], slice).at(Without(index, [axis]))
    {
      StackedInside(parts[0].shape, axis, |parts|, index);
      WithoutOne(index, axis);
    }
  }

  /** A parameter assembled from a flat list, stacked directly in place; None where the code raises. The result is
      what the several-axes assembly gives for one level of nesting and that axis. */
  method BuildSingleAxis(names: seq<seq<string>>, load: (seq<string>, seq<nat>) -> Tensor, target: seq<nat>,
                         mtKey: string, scanLayers: bool, paramScanAxis: nat) returns (r: Option<Tensor>)
    ensures target == [] ==> r == None
    ensures target != [] ==>
              var axis := SingleAxis(scanLayers, AxisLeads(mtKey), paramScanAxis, |target|);
              var slice := Without(target, [axis]);
              && SameResult(r, StackThenPlace(Loaded(names, load, slice), axis))
              && (r.Some? ==> ElementsFrom(r.value, names, load, slice, axis))
  {
    hide Without, StackAt, StackThenPlace, SameResult, ElementsFrom, AxisLeads;
    var axis := 0;
    if scanLayers {
      if !AxisLeads(mtKey) {
        axis := if |target| > paramScanAxis then paramScanAxis else 0;
      }
    }
    if target == [] {
      return None;
    }
    var slice := RemoveAt(target, axis);
    WithoutOne(target, axis);
    var parts := [];
    for i := 0 to |names|
      invariant parts == Loaded(names[..i], load, slice)
    {
      parts := parts + [load(names[i], slice)];
    }
    assert names[..|names|] == names;
    r := StackAt(parts, axis);
    DirectPlacement(parts, axis);
    if r.Some? {
      StackedElementsFrom(names, load, slice, axis);
    }
  }
}
