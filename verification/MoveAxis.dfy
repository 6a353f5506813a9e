/** Moving the leading axes of a tensor to ascending positions, as numpy's `moveaxis` computes it: build an axis order
    by insertions, then transpose. */
module MoveAxis {
  import opened Wrappers
  import opened Sequences
  import opened TensorStack

  /** Python's `list.insert`. */
  function Insert(s: seq<nat>, p: nat, v: nat): seq<nat> {
    if p <= |s| then s[..p] + [v] + s[p..] else s + [v]
  }

  /** `order` of numpy's moveaxis from axes 0.. to ascending axes, after the first m insertions. */
  function MoveOrder(axes: seq<nat>, m: nat, ndim: nat): seq<nat>
    requires m <= |axes| <= ndim
  {
    if m == 0 then seq(ndim - |axes|, i requires 0 <= i < ndim - |axes| => |axes| + i)
    else Insert(MoveOrder(axes, m - 1, ndim), axes[m - 1], m - 1)
  }

  /** Where a mark stands; the length when it is missing. */
  function Position(order: seq<nat>, mark: nat): (p: nat)
    ensures p <= |order| && (p < |order| ==> order[p] == mark)
    ensures forall i :: 0 <= i < p ==> order[i] != mark
  {
    if order == [] then 0 else if order[0] == mark then 0 else 1 + Position(order[1..], mark)
  }

  /** `np.transpose`: axis i of the result is axis order[i] of the tensor. */
  function Transpose(t: Tensor, order: seq<nat>): Tensor
    requires forall i :: 0 <= i < |order| ==> order[i] < |t.shape|
  {
    Tensor(seq(|order|, i requires 0 <= i < |order| => t.shape[order[i]]),
           (index: seq<nat>) => t.at(Unpermuted(index, order, |t.shape|)))
  }

  function Unpermuted(index: seq<nat>, order: seq<nat>, ndim: nat): (r: seq<nat>)
    ensures |r| == ndim
  {
    seq(ndim, d requires 0 <= d < ndim => if Position(order, d) < |index| then index[Position(order, d)] else 0)
  }

  ghost predicate Increasing(axes: seq<nat>) {
    forall i, j :: 0 <= i < j < |axes| ==> axes[i] < axes[j]
  }

  /** Increasing axes of a tensor with `ndim` of them. */
  ghost predicate Ascending(axes: seq<nat>, ndim: nat) {
    && Increasing(axes)
    && (forall i :: 0 <= i < |axes| ==> axes[i] < ndim)
  }

  /** Ascending axes leave room for those before them. */
  lemma {:induction false} AxisRoom(axes: seq<nat>, ndim: nat, k: nat)
    requires Ascending(axes, ndim) && k < |axes|
    ensures k <= axes[k] && axes[k] + (|axes| - k) <= ndim
    decreases |axes| - k
  {
    AxisAtLeast(axes, k);
    if k < |axes| - 1 { AxisRoom(axes, ndim, k + 1); }
  }

  lemma {:induction false} AxisAtLeast(axes: seq<nat>, k: nat)
    requires k < |axes| && Increasing(axes)
    ensures k <= axes[k]
  {
    if k > 0 { AxisAtLeast(axes, k - 1); }
  }

  lemma InsertPosition(s: seq<nat>, p: nat, v: nat, mark: nat)
    requires p <= |s|
    ensures v !in s ==> Position(Insert(s, p, v), v) == p
    ensures mark != v && mark in s ==>
              Position(Insert(s, p, v), mark) == Position(s, mark) + if Position(s, mark) >= p then 1 else 0
  {
    var r := Insert(s, p, v);
    assert r[p] == v && (forall i :: 0 <= i < p ==> r[i] == s[i]) && forall i :: p < i < |r| ==> r[i] == s[i - 1];
    if v !in s { PositionIs(r, v, p); }
    if mark != v && mark in s {
      var q := Position(s, mark);
      InPosition(s, mark);
      PositionIs(r, mark, if q >= p then q + 1 else q);
    }
  }

  lemma PositionIs(s: seq<nat>, mark: nat, p: nat)
    requires p < |s| && s[p] == mark && forall i :: 0 <= i < p ==> s[i] != mark
    ensures Position(s, mark) == p
  {
  }

  lemma {:induction false} InPosition(s: seq<nat>, mark: nat)
    requires mark in s
    ensures Position(s, mark) < |s|
  {
    if s[0] != mark { InPosition(s[1..], mark); }
  }

  lemma InsertMember(s: seq<nat>, p: nat, v: nat, d: nat)
    requires p <= |s|
    ensures |Insert(s, p, v)| == |s| + 1
    ensures d in Insert(s, p, v) <==> d in s || d == v
  {
    assert s == s[..p] + s[p..];
  }

  lemma {:induction false} MoveOrderLength(axes: seq<nat>, m: nat, ndim: nat)
    requires m <= |axes| <= ndim
    ensures |MoveOrder(axes, m, ndim)| == ndim - |axes| + m
  {
    if m > 0 { MoveOrderLength(axes, m - 1, ndim); }
  }

  /** After m insertions the order holds the first m moved axes and all the unmoved ones. */
  lemma {:induction false} MoveOrderMember(axes: seq<nat>, m: nat, ndim: nat, d: nat)
    requires m <= |axes| <= ndim && Ascending(axes, ndim)
    ensures d in MoveOrder(axes, m, ndim) <==> d < m || |axes| <= d < ndim
  {
    hide Insert;
    if m > 0 {
      MoveOrderMember(axes, m - 1, ndim, d);
      RoomToInsert(axes, m, ndim);
      InsertMember(MoveOrder(axes, m - 1, ndim), axes[m - 1], m - 1, d);
    } else if |axes| <= d < ndim {
      assert MoveOrder(axes, 0, ndim)[d - |axes|] == d;
    }
  }

  /** Each insertion happens within the list. */
  lemma RoomToInsert(axes: seq<nat>, m: nat, ndim: nat)
    requires 0 < m <= |axes| <= ndim && Ascending(axes, ndim)
    ensures axes[m - 1] <= |MoveOrder(axes, m - 1, ndim)|
  {
    hide MoveOrder, Ascending;
    MoveOrderLength(axes, m - 1, ndim);
    AxisRoom(axes, ndim, m - 1);
  }

  /** A moved axis stands where it was asked to go. */
  lemma {:induction false} MovedPosition(axes: seq<nat>, m: nat, ndim: nat, k: nat)
    requires k < m <= |axes| <= ndim && Ascending(axes, ndim)
    ensures Position(MoveOrder(axes, m, ndim), k) == axes[k]
  {
    hide Insert, Position;
    RoomToInsert(axes, m, ndim);
    MoveOrderMember(axes, m - 1, ndim, k);
    InsertPosition(MoveOrder(axes, m - 1, ndim), axes[m - 1], m - 1, k);
    if k < m - 1 { MovedPosition(axes, m - 1, ndim, k); }
  }

  /** The coordinates left when the axes are taken out, last axis first. */
  function RemoveAxes<T>(s: seq<T>, axes: seq<nat>): seq<T> {
    if axes == [] then s else RemoveAxes(RemoveAt(s, axes[|axes| - 1]), axes[..|axes| - 1])
  }

  /** A mark reads the same coordinate before an insertion as after it, with the inserted coordinate taken out. */
  lemma ReadThroughInsert(o: seq<nat>, p: nat, v: nat, mark: nat, index: seq<nat>)
    requires p <= |o| && |index| == |o| + 1 && mark in o && mark != v
    ensures |RemoveAt(index, p)| == |o| && Position(o, mark) < |o|
    ensures Position(Insert(o, p, v), mark) < |index|
    ensures index[Position(Insert(o, p, v), mark)] == RemoveAt(index, p)[Position(o, mark)]
  {
    hide Insert, Position;
    InPosition(o, mark);
    InsertPosition(o, p, v, mark);
  }

  lemma OneMoreAxis<T>(axes: seq<nat>, m: nat, ndim: nat, index: seq<T>)
    requires 0 < m <= |axes| <= ndim
    ensures MoveOrder(axes, m, ndim) == Insert(MoveOrder(axes, m - 1, ndim), axes[m - 1], m - 1)
    ensures RemoveAxes(index, axes[..m]) == RemoveAxes(RemoveAt(index, axes[m - 1]), axes[..m - 1])
  {
    assert axes[..m][..m - 1] == axes[..m - 1] && axes[..m][m - 1] == axes[m - 1];
  }

  lemma RestUnmoved(axes: seq<nat>, ndim: nat, index: seq<nat>, j: nat)
    requires |axes| <= ndim && |index| == ndim - |axes| && j < |index|
    ensures RemoveAxes(index, axes[..0]) == index && Position(MoveOrder(axes, 0, ndim), |axes| + j) == j
  {
    PositionIs(MoveOrder(axes, 0, ndim), |axes| + j, j);
    assert axes[..0] == [];
  }

  /** The j-th unmoved axis reads the j-th remaining coordinate. */
  lemma {:induction false} RestPosition(axes: seq<nat>, m: nat, ndim: nat, index: seq<nat>, j: nat)
    requires m <= |axes| <= ndim && Ascending(axes, ndim)
    requires |index| == ndim - |axes| + m && j < ndim - |axes|
    ensures |RemoveAxes(index, axes[..m])| == ndim - |axes|
    ensures var p := Position(MoveOrder(axes, m, ndim), |axes| + j);
            p < |index| && index[p] == RemoveAxes(index, axes[..m])[j]
    decreases m
  {
    hide Insert, Position, Ascending, MoveOrder, RemoveAt, RemoveAxes;
    if m == 0 {
      RestUnmoved(axes, ndim, index, j);
    } else {
      var o, p := MoveOrder(axes, m - 1, ndim), axes[m - 1];
      RoomToInsert(axes, m, ndim);
      MoveOrderLength(axes, m - 1, ndim);
      MoveOrderMember(axes, m - 1, ndim, |axes| + j);
      ReadThroughInsert(o, p, m - 1, |axes| + j, index);
      RestPosition(axes, m - 1, ndim, RemoveAt(index, p), j);
      OneMoreAxis(axes, m, ndim, index);
    }
  }

  /** `slice_shape`: the entries whose position is not among the axes, in order. */
  function Without<T>(s: seq<T>, axes: seq<nat>): seq<T> {
    if s == [] then []
    else Without(s[..|s| - 1], axes) + if |s| - 1 in axes then [] else [s[|s| - 1]]
  }

  lemma {:induction false} WithoutBeyond<T>(s: seq<T>, axes: seq<nat>, p: nat)
    requires p <= |s| && forall a :: a in axes ==> a < p
    ensures Without(s, axes) == Without(s[..p], axes) + s[p..]
    decreases |s|
  {
    if p < |s| {
      WithoutBeyond(s[..|s| - 1], axes, p);
      assert s[..|s| - 1][..p] == s[..p];
    } else {
      assert s[..p] == s;
    }
  }

  lemma {:induction false} WithoutFewer<T>(s: seq<T>, axes: seq<nat>, a: nat)
    requires a >= |s|
    ensures Without(s, axes + [a]) == Without(s, axes)
  {
    if s != [] {
      WithoutFewer(s[..|s| - 1], axes, a);
      assert |s| - 1 in axes + [a] <==> |s| - 1 in axes;
    }
  }

  /** The axes before the last one are ascending and below it. */
  lemma AxesFront(axes: seq<nat>, ndim: nat)
    requires axes != [] && Ascending(axes, ndim)
    ensures Ascending(axes[..|axes| - 1], axes[|axes| - 1])
    ensures axes == axes[..|axes| - 1] + [axes[|axes| - 1]] && axes[|axes| - 1] < ndim
  {
  }

  /** Taking the last axis out first does not disturb the positions of the others. */
  lemma WithoutLastAxis<T>(s: seq<T>, front: seq<nat>, p: nat)
    requires p < |s| && Ascending(front, p)
    ensures Without(s, front + [p]) == Without(RemoveAt(s, p), front)
  {
    var r := RemoveAt(s, p);
    WithoutBeyond(s, front + [p], p + 1);
    WithoutBeyond(r, front, p);
    assert r[..p] == s[..p] && r[p..] == s[p + 1..] && s[..p + 1][..p] == s[..p];
    WithoutFewer(s[..p], front, p);
    assert p in front + [p];
    assert Without(s[..p + 1], front + [p]) == Without(s[..p], front + [p]);
  }

  /** Taking the axes out one by one leaves what `slice_shape` leaves. */
  lemma {:induction false} RemoveAxesIsWithout<T>(s: seq<T>, axes: seq<nat>)
    requires Ascending(axes, |s|)
    ensures RemoveAxes(s, axes) == Without(s, axes) && |axes| + |Without(s, axes)| == |s|
    decreases |axes|
  {
    if axes == [] {
      NothingWithout(s);
    } else {
      hide Without;
      AxesFront(axes, |s|);
      WithoutLastAxis(s, axes[..|axes| - 1], axes[|axes| - 1]);
      RemoveAxesIsWithout(RemoveAt(s, axes[|axes| - 1]), axes[..|axes| - 1]);
    }
  }

  lemma {:induction false} NothingWithout<T>(s: seq<T>)
    ensures Without(s, []) == s
  {
    if s != [] { NothingWithout(s[..|s| - 1]); }
  }

  lemma LastAxis(axes: seq<nat>, last: nat)
    requires Ascending(axes, last + 1) && last in axes
    ensures axes[|axes| - 1] == last
  {
    var k :| 0 <= k < |axes| && axes[k] == last;
    assert axes[k] <= axes[|axes| - 1];
  }

  lemma PickOnAxis<T>(s: seq<T>, front: seq<nat>)
    requires s != [] && Ascending(front, |s| - 1)
    ensures Pick(s, front + [|s| - 1]) == Pick(s[..|s| - 1], front) + [s[|s| - 1]]
  {
    var axes: seq<nat> := front + [|s| - 1];
    forall i | 0 <= i < |axes|
      ensures Pick(s, axes)[i] == (Pick(s[..|s| - 1], front) + [s[|s| - 1]])[i]
    {
      if i < |front| { assert axes[i] == front[i] < |s| - 1; }
    }
  }

  lemma WithoutOnAxis<T>(s: seq<T>, front: seq<nat>)
    requires s != []
    ensures Without(s, front + [|s| - 1]) == Without(s[..|s| - 1], front)
  {
    var axes: seq<nat> := front + [|s| - 1];
    assert axes[|front|] == |s| - 1;
    WithoutFewer(s[..|s| - 1], front, |s| - 1);
  }

  lemma SplitOnAxis<T>(s: seq<T>, axes: seq<nat>)
    requires s != [] && Ascending(axes, |s|) && |s| - 1 in axes
    ensures var last := |s| - 1;
            && axes != [] && Ascending(axes[..|axes| - 1], last)
            && Pick(s, axes) == Pick(s[..last], axes[..|axes| - 1]) + [s[last]]
            && Without(s, axes) == Without(s[..last], axes[..|axes| - 1])
  {
    hide Without;
    AxesFront(axes, |s|);
    LastAxis(axes, |s| - 1);
    var front := axes[..|axes| - 1];
    assert axes == front + [|s| - 1];
    PickOnAxis(s, front);
    WithoutOnAxis(s, front);
  }

  lemma SplitOffAxis<T>(s: seq<T>, axes: seq<nat>)
    requires s != [] && Ascending(axes, |s|) && |s| - 1 !in axes
    ensures var last := |s| - 1;
            && Ascending(axes, last)
            && Pick(s, axes) == Pick(s[..last], axes)
            && Without(s, axes) == Without(s[..last], axes) + [s[last]]
  {
    forall i | 0 <= i < |axes| ensures axes[i] < |s| - 1 { assert axes[i] != |s| - 1; }
  }

  /** A sequence is determined by its coordinates on and off the axes. */
  lemma {:induction false} SplitDetermines<T>(s: seq<T>, t: seq<T>, axes: seq<nat>)
    requires Ascending(axes, |s|) && |s| == |t|
    requires Pick(s, axes) == Pick(t, axes) && Without(s, axes) == Without(t, axes)
    ensures s == t
  {
    if s != [] {
      hide Without;
      var last := |s| - 1;
      if last in axes {
        SplitOnAxis(s, axes);
        SplitOnAxis(t, axes);
        SameEnds(Pick(s[..last], axes[..|axes| - 1]), Pick(t[..last], axes[..|axes| - 1]), s[last], t[last]);
        SplitDetermines(s[..last], t[..last], axes[..|axes| - 1]);
      } else {
        SplitOffAxis(s, axes);
        SplitOffAxis(t, axes);
        SameEnds(Without(s[..last], axes), Without(t[..last], axes), s[last], t[last]);
        SplitDetermines(s[..last], t[..last], axes);
      }
      assert s == s[..last] + [s[last]] && t == t[..last] + [t[last]];
    }
  }

  lemma SameEnds<T>(s: seq<T>, t: seq<T>, x: T, y: T)
    requires s + [x] == t + [y]
    ensures s == t && x == y
  {
    assert (s + [x])[|s|] == x && (t + [y])[|t|] == y;
    assert s == (s + [x])[..|s|] && t == (t + [y])[..|t|];
  }

  lemma UnpermutedAt(axes: seq<nat>, ndim: nat, index: seq<nat>, d: nat)
    requires |axes| <= ndim == |index| && Ascending(axes, ndim) && d < ndim
    requires |Without(index, axes)| == ndim - |axes|
    ensures Unpermuted(index, MoveOrder(axes, |axes|, ndim), ndim)[d] ==
            (Pick(index, axes) + Without(index, axes))[d]
  {
    hide Position, MoveOrder, Without;
    assert axes[..|axes|] == axes;
    if d < |axes| {
      MovedPosition(axes, |axes|, ndim, d);
    } else {
      RemoveAxesIsWithout(index, axes);
      RestPosition(axes, |axes|, ndim, index, d - |axes|);
    }
  }

  /** Undoing the move: first the coordinates on the moved axes, then the others in order. */
  lemma UnpermutedIs(axes: seq<nat>, ndim: nat, index: seq<nat>)
    requires |axes| <= ndim == |index| && Ascending(axes, ndim)
    ensures |Without(index, axes)| == ndim - |axes|
    ensures Unpermuted(index, MoveOrder(axes, |axes|, ndim), ndim) == Pick(index, axes) + Without(index, axes)
  {
    hide Without, MoveOrder;
    RemoveAxesIsWithout(index, axes);
    forall d | 0 <= d < ndim
      ensures Unpermuted(index, MoveOrder(axes, |axes|, ndim), ndim)[d] ==
              (Pick(index, axes) + Without(index, axes))[d]
    {
      UnpermutedAt(axes, ndim, index, d);
    }
  }

  // ---- moving a tensor's leading axes ----

  predicate InRank(axes: seq<nat>, ndim: nat) {
    |axes| <= ndim && forall i :: 0 <= i < |axes| ==> axes[i] < ndim
  }

  lemma OrderInRange(axes: seq<nat>, ndim: nat)
    requires Increasing(axes) && InRank(axes, ndim)
    ensures var o := MoveOrder(axes, |axes|, ndim);
            |o| == ndim && (forall d: nat :: d in o <==> d < ndim) && forall i :: 0 <= i < |o| ==> o[i] < ndim
  {
    hide MoveOrder;
    MoveOrderLength(axes, |axes|, ndim);
    forall d: nat ensures d in MoveOrder(axes, |axes|, ndim) <==> d < ndim {
      MoveOrderMember(axes, |axes|, ndim, d);
    }
    forall i | 0 <= i < ndim ensures MoveOrder(axes, |axes|, ndim)[i] < ndim {
      assert MoveOrder(axes, |axes|, ndim)[i] in MoveOrder(axes, |axes|, ndim);
    }
  }

  /** `moveaxis` from axes 0, 1, .. to the given ones; None when one is out of range. */
  function MoveLeading(t: Tensor, axes: seq<nat>): Option<Tensor>
    requires Increasing(axes)
  {
    if !InRank(axes, |t.shape|) then None
    else
      OrderInRange(axes, |t.shape|);
      Some(Transpose(t, MoveOrder(axes, |axes|, |t.shape|)))
  }

  /** The result's dimensions on the given axes are the leading ones, and the others keep their order. */
  lemma MovedShape(t: Tensor, axes: seq<nat>)
    requires Increasing(axes) && MoveLeading(t, axes).Some?
    ensures var r := MoveLeading(t, axes).value;
            && |r.shape| == |t.shape|
            && Pick(r.shape, axes) + Without(r.shape, axes) == t.shape
  {
    hide MoveOrder, Without, Position;
    var r, ndim := MoveLeading(t, axes).value, |t.shape|;
    var o := MoveOrder(axes, |axes|, ndim);
    OrderInRange(axes, ndim);
    UnpermutedIs(axes, ndim, r.shape);
    forall d | 0 <= d < ndim ensures Unpermuted(r.shape, o, ndim)[d] == t.shape[d] {
      InPosition(o, d);
    }
  }

  /** Moving the axes in place is direct placement: the element at an index is the original's element at the
      coordinates on the given axes followed by the remaining ones. */
  lemma MovedElement(t: Tensor, axes: seq<nat>, index: seq<nat>)
    requires Increasing(axes) && MoveLeading(t, axes).Some? && InShape(index, MoveLeading(t, axes).value.shape)
    ensures InRank(axes, |index|)
    ensures var from := Pick(index, axes) + Without(index, axes);
            InShape(from, t.shape) && MoveLeading(t, axes).value.at(index) == t.at(from)
  {
    hide MoveOrder, Without, Position;
    var ndim := |t.shape|;
    var o := MoveOrder(axes, |axes|, ndim);
    OrderInRange(axes, ndim);
    UnpermutedIs(axes, ndim, index);
    forall d | 0 <= d < ndim ensures Unpermuted(index, o, ndim)[d] < t.shape[d] {
      InPosition(o, d);
    }
  }
}
