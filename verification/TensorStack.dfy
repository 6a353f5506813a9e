/** Tensors by shape and element, and two ways to stack them along a new axis: all at once, or by halves. */
module TensorStack {
  import opened Wrappers

  type Elem = real

  datatype Tensor = Tensor(shape: seq<nat>, at: seq<nat> -> Elem)

  predicate InShape(index: seq<nat>, shape: seq<nat>) {
    |index| == |shape| && forall i :: 0 <= i < |index| ==> index[i] < shape[i]
  }

  /** The same array: equal shapes, equal elements at every index inside. */
  ghost predicate Same(a: Tensor, b: Tensor) {
    a.shape == b.shape && forall index :: InShape(index, a.shape) ==> a.at(index) == b.at(index)
  }

  ghost predicate SameResult(a: Option<Tensor>, b: Option<Tensor>) {
    a.Some? == b.Some? && (a.Some? ==> Same(a.value, b.value))
  }

  function RemoveAt<T>(s: seq<T>, p: nat): seq<T> {
    if p < |s| then s[..p] + s[p + 1..] else s
  }

  function InsertAt<T>(s: seq<T>, p: nat, v: T): seq<T>
    requires p <= |s|
  {
    s[..p] + [v] + s[p..]
  }

  predicate SameShapes(parts: seq<Tensor>) {
    forall i :: 0 <= i < |parts| ==> parts[i].shape == parts[0].shape
  }

  /** `stack` along a new axis; None where it raises: nothing to stack, unequal shapes, or an axis out of range. */
  function StackAt(parts: seq<Tensor>, axis: nat): Option<Tensor> {
    if parts == [] || !SameShapes(parts) || axis > |parts[0].shape| then None
    else Some(Tensor(InsertAt(parts[0].shape, axis, |parts|), index => StackedElement(parts, axis, index)))
  }

  function StackedElement(parts: seq<Tensor>, axis: nat, index: seq<nat>): Elem {
    if axis < |index| && index[axis] < |parts| then parts[index[axis]].at(RemoveAt(index, axis)) else 0.0
  }

  /** `expand_dims`; None when the axis is out of range. */
  function ExpandDims(t: Tensor, axis: nat): Option<Tensor> {
    if axis > |t.shape| then None
    else Some(Tensor(InsertAt(t.shape, axis, 1), index => t.at(RemoveAt(index, axis))))
  }

  predicate JoinableAlong(a: Tensor, b: Tensor, axis: nat) {
    && |a.shape| == |b.shape| && axis < |a.shape|
    && forall i :: 0 <= i < |a.shape| && i != axis ==> a.shape[i] == b.shape[i]
  }

  /** `concatenate` of two tensors along an axis; None when the other axes differ. */
  function Concatenate(a: Tensor, b: Tensor, axis: nat): Option<Tensor> {
    if !JoinableAlong(a, b, axis) then None
    else Some(Tensor(a.shape[axis := a.shape[axis] + b.shape[axis]], index => JoinedElement(a, b, axis, index)))
  }

  function JoinedElement(a: Tensor, b: Tensor, axis: nat, index: seq<nat>): Elem
    requires axis < |a.shape|
  {
    if axis >= |index| then 0.0
    else if index[axis] < a.shape[axis] then a.at(index)
    else b.at(index[axis := index[axis] - a.shape[axis]])
  }

  /** Stacking by halves, so that no step handles more than two tensors. */
  function BinaryChunkedStack(parts: seq<Tensor>, axis: nat): Option<Tensor> {
    if parts == [] then None
    else if |parts| == 1 then ExpandDims(parts[0], axis)
    else if |parts| == 2 then StackAt(parts, axis)
    else
      var mid := |parts| / 2;
      var left, right := BinaryChunkedStack(parts[..mid], axis), BinaryChunkedStack(parts[mid..], axis);
      if left.None? || right.None? then None else Concatenate(left.value, right.value, axis)
  }

  // ---- stacking by halves is stacking ----

  lemma {:induction false} SameWhole(parts: seq<Tensor>, mid: nat)
    requires 0 < mid < |parts|
    ensures SameShapes(parts) <==>
            SameShapes(parts[..mid]) && SameShapes(parts[mid..]) && parts[mid].shape == parts[0].shape
  {
    var low, high := parts[..mid], parts[mid..];
    assert low[0] == parts[0] && high[0] == parts[mid];
    if SameShapes(low) && SameShapes(high) && parts[mid].shape == parts[0].shape {
      forall i | 0 <= i < |parts| ensures parts[i].shape == parts[0].shape {
        assert if i < mid then parts[i] == low[i] else parts[i] == high[i - mid];
      }
    }
  }

  /** Widened shapes agree off the new axis exactly when the shapes are equal. */
  lemma InsertedShapes(s: seq<nat>, t: seq<nat>, axis: nat, m: nat, n: nat)
    requires axis <= |s| && axis <= |t|
    ensures var u, v := InsertAt(s, axis, m), InsertAt(t, axis, n);
            (|u| == |v| && forall i :: 0 <= i < |u| && i != axis ==> u[i] == v[i]) <==> s == t
  {
    var u, v := InsertAt(s, axis, m), InsertAt(t, axis, n);
    if |u| == |v| && forall i :: 0 <= i < |u| && i != axis ==> u[i] == v[i] {
      forall i | 0 <= i < |s| ensures s[i] == t[i] {
        var j := if i < axis then i else i + 1;
        assert u[j] == s[i] && v[j] == t[i];
      }
    }
  }

  /** An index of the joined halves is an index of the half it falls in, and reads the same part there. */
  lemma HalfElement(parts: seq<Tensor>, axis: nat, mid: nat, index: seq<nat>)
    requires 0 < mid < |parts| && SameShapes(parts) && axis <= |parts[0].shape|
    requires InShape(index, InsertAt(parts[0].shape, axis, |parts|))
    ensures index[axis] < mid ==>
              && InShape(index, InsertAt(parts[0].shape, axis, mid))
              && StackedElement(parts[..mid], axis, index) == StackedElement(parts, axis, index)
    ensures index[axis] >= mid ==>
              var moved := index[axis := index[axis] - mid];
              && InShape(moved, InsertAt(parts[0].shape, axis, |parts| - mid))
              && StackedElement(parts[mid..], axis, moved) == StackedElement(parts, axis, index)
  {
    var whole := InsertAt(parts[0].shape, axis, |parts|);
    var moved := index[axis := if index[axis] >= mid then index[axis] - mid else 0];
    assert RemoveAt(moved, axis) == RemoveAt(index, axis);
    var low, high := InsertAt(parts[0].shape, axis, mid), InsertAt(parts[0].shape, axis, |parts| - mid);
    assert low == whole[axis := mid] && high == whole[axis := |parts| - mid];
  }

  /** Joining the stacks of the two halves gives the stack of the whole, or fails exactly when it does. */
  lemma JoinHalves(parts: seq<Tensor>, axis: nat, mid: nat, left: Option<Tensor>, right: Option<Tensor>)
    requires 0 < mid < |parts|
    requires SameResult(left, StackAt(parts[..mid], axis)) && SameResult(right, StackAt(parts[mid..], axis))
    ensures var joined := if left.None? || right.None? then None else Concatenate(left.value, right.value, axis);
            SameResult(joined, StackAt(parts, axis))
  {
    hide StackedElement, InShape, JoinedElement;
    SameWhole(parts, mid);
    if left.Some? && right.Some? {
      var a, b, shape := left.value, right.value, parts[0].shape;
      InsertedShapes(shape, parts[mid].shape, axis, mid, |parts| - mid);
      if JoinableAlong(a, b, axis) {
        var joined, whole := Concatenate(a, b, axis).value, StackAt(parts, axis).value;
        assert joined.shape == whole.shape;
        forall index | InShape(index, joined.shape) ensures joined.at(index) == whole.at(index) {
          JoinedAt(parts, axis, mid, a, b, index);
        }
      }
    }
  }

  lemma JoinedAt(parts: seq<Tensor>, axis: nat, mid: nat, a: Tensor, b: Tensor, index: seq<nat>)
    requires 0 < mid < |parts| && SameShapes(parts) && axis <= |parts[0].shape|
    requires SameResult(Some(a), StackAt(parts[..mid], axis)) && SameResult(Some(b), StackAt(parts[mid..], axis))
    requires InShape(index, InsertAt(parts[0].shape, axis, |parts|))
    ensures axis < |a.shape| && JoinedElement(a, b, axis, index) == StackedElement(parts, axis, index)
  {
    hide StackedElement;
    HalfElement(parts, axis, mid, index);
  }

  /** Stacking by halves never changes the result: the same array, and an error for the same inputs. */
  lemma {:induction false} ChunkedIsStack(parts: seq<Tensor>, axis: nat)
    ensures SameResult(BinaryChunkedStack(parts, axis), StackAt(parts, axis))
    decreases |parts|
  {
    if |parts| == 1 {
      SingleStack(parts[0], axis);
      assert parts == [parts[0]];
    } else if |parts| > 2 {
      hide StackAt, SameResult, Concatenate;
      var mid := |parts| / 2;
      ChunkedIsStack(parts[..mid], axis);
      ChunkedIsStack(parts[mid..], axis);
      JoinHalves(parts, axis, mid, BinaryChunkedStack(parts[..mid], axis), BinaryChunkedStack(parts[mid..], axis));
    }
  }

  lemma SingleStack(t: Tensor, axis: nat)
    ensures SameResult(ExpandDims(t, axis), StackAt([t], axis))
  {
    if axis <= |t.shape| {
      var shape := InsertAt(t.shape, axis, 1);
      forall index | InShape(index, shape) ensures t.at(RemoveAt(index, axis)) == StackedElement([t], axis, index) {
        assert shape[axis] == 1 && index[axis] < shape[axis];
      }
    }
  }

  lemma StackOfSame(parts: seq<Tensor>, others: seq<Tensor>, axis: nat)
    requires |parts| == |others| && forall i :: 0 <= i < |parts| ==> Same(parts[i], others[i])
    ensures SameResult(StackAt(parts, axis), StackAt(others, axis))
  {
    if parts != [] && SameShapes(parts) && axis <= |parts[0].shape| {
      var shape := InsertAt(parts[0].shape, axis, |parts|);
      forall index | InShape(index, shape)
        ensures StackedElement(parts, axis, index) == StackedElement(others, axis, index)
      {
        StackedInside(parts[0].shape, axis, |parts|, index);
        assert Same(parts[index[axis]], others[index[axis]]);
      }
    }
  }

  lemma StackedInside(shape: seq<nat>, axis: nat, n: nat, index: seq<nat>)
    requires axis <= |shape| && InShape(index, InsertAt(shape, axis, n))
    ensures axis < |index| && index[axis] < n && InShape(RemoveAt(index, axis), shape)
  {
    var wide, rest := InsertAt(shape, axis, n), RemoveAt(index, axis);
    assert wide[axis] == n;
    forall i | 0 <= i < |rest| ensures rest[i] < shape[i] {
      var j := if i < axis then i else i + 1;
      assert rest[i] == index[j] && shape[i] == wide[j];
    }
  }
}
