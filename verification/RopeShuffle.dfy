/** The rotary-embedding layout change of adapter weights: within each head the two halves are interleaved. One row of
    the weight is a sequence of heads laid end to end. */
module RopeShuffle {
  import opened Wrappers
  import opened Arithmetic

  /** Stacking two halves on a new last axis and flattening: a[0], b[0], a[1], b[1], ... */
  function Interleave<T>(a: seq<T>, b: seq<T>): (r: seq<T>)
    requires |a| == |b|
    ensures |r| == 2 * |a|
    ensures forall i :: 0 <= i < |a| ==> r[2 * i] == a[i] && r[2 * i + 1] == b[i]
  {
    seq(2 * |a|, j requires 0 <= j < 2 * |a| => if j % 2 == 0 then a[j / 2] else b[j / 2])
  }

  /** None where stacking the two halves of an odd head raises. */
  function ShuffleHead<T>(head: seq<T>): Option<seq<T>> {
    if |head| % 2 != 0 then None else Some(Interleave(head[..|head| / 2], head[|head| / 2..]))
  }

  /** The inverse layout change: even positions first, then odd ones. */
  function UnshuffleHead<T>(head: seq<T>): Option<seq<T>> {
    if |head| % 2 != 0 then None
    else
      var half := |head| / 2;
      Some(seq(half, i requires 0 <= i < half => head[2 * i]) + seq(half, i requires 0 <= i < half => head[2 * i + 1]))
  }

  lemma HeadElement<T>(head: seq<T>, i: nat)
    requires |head| % 2 == 0 && 2 * i < |head|
    ensures var r := ShuffleHead(head).value;
            |r| == |head| && r[2 * i] == head[i] && r[2 * i + 1] == head[|head| / 2 + i]
  {
  }

  lemma EvenHead<T>(head: seq<T>)
    requires |head| % 2 == 0
    ensures ShuffleHead(head).Some? && |ShuffleHead(head).value| == |head|
    ensures UnshuffleHead(head).Some? && |UnshuffleHead(head).value| == |head|
  {
  }

  lemma UnshuffledElement<T>(head: seq<T>, i: nat)
    requires |head| % 2 == 0 && 2 * i < |head|
    ensures var u, half := UnshuffleHead(head).value, |head| / 2;
            |u| == |head| && u[i] == head[2 * i] && u[half + i] == head[2 * i + 1]
  {
  }

  lemma ShuffleUnshuffled<T>(head: seq<T>)
    requires |head| % 2 == 0
    ensures |UnshuffleHead(head).value| == |head| && ShuffleHead(UnshuffleHead(head).value) == Some(head)
  {
    hide ShuffleHead, UnshuffleHead;
    EvenHead(head);
    var u := UnshuffleHead(head).value;
    EvenHead(u);
    var s := ShuffleHead(u).value;
    forall j | 0 <= j < |head| ensures s[j] == head[j] {
      UnshuffledElement(head, j / 2);
      HeadElement(u, j / 2);
      assert j == 2 * (j / 2) || j == 2 * (j / 2) + 1;
    }
    assert s == head;
  }

  lemma UnshuffleShuffled<T>(head: seq<T>)
    requires |head| % 2 == 0
    ensures |ShuffleHead(head).value| == |head| && UnshuffleHead(ShuffleHead(head).value) == Some(head)
  {
    hide ShuffleHead, UnshuffleHead;
    EvenHead(head);
    var s, half := ShuffleHead(head).value, |head| / 2;
    EvenHead(s);
    var u := UnshuffleHead(s).value;
    forall j | 0 <= j < |head| ensures u[j] == head[j] {
      var i := if j < half then j else j - half;
      UnshuffledElement(s, i);
      HeadElement(head, i);
    }
    assert u == head;
  }

  /** Applying a layout change to each head of a row; None where the row is not `heads * headDim` long or a head fails. */
  function PerHead<T>(row: seq<T>, heads: nat, headDim: nat, forward: bool): Option<seq<T>>
    decreases heads
  {
    if |row| != Times(heads, headDim) || headDim % 2 != 0 then None
    else if heads == 0 then Some([])
    else
      HeadFits(heads, headDim);
      var cut := Times(heads - 1, headDim);
      var front := PerHead(row[..cut], heads - 1, headDim, forward);
      var last := ChangeHead(row[cut..], forward);
      if front.None? || last.None? then None else Some(front.value + last.value)
  }

  lemma HeadFits(heads: nat, headDim: nat)
    requires heads > 0
    ensures Times(heads - 1, headDim) + headDim == Times(heads, headDim)
  {
  }

  /** The change fails exactly on rows of the wrong length and on odd heads, and keeps the length. */
  lemma {:induction false} ShuffleIff<T>(row: seq<T>, heads: nat, headDim: nat, forward: bool)
    ensures PerHead(row, heads, headDim, forward).Some? <==> |row| == Times(heads, headDim) && headDim % 2 == 0
    ensures PerHead(row, heads, headDim, forward).Some? ==> |PerHead(row, heads, headDim, forward).value| == |row|
    decreases heads
  {
    hide Times, ShuffleHead, UnshuffleHead;
    NoHeads(headDim);
    if |row| == Times(heads, headDim) && headDim % 2 == 0 && heads > 0 {
      HeadFits(heads, headDim);
      var cut := Times(heads - 1, headDim);
      ShuffleIff(row[..cut], heads - 1, headDim, forward);
      HeadChanges(row[cut..], forward);
    }
  }

  function ChangeHead<T>(head: seq<T>, forward: bool): Option<seq<T>> {
    if forward then ShuffleHead(head) else UnshuffleHead(head)
  }

  lemma HeadChanges<T>(head: seq<T>, forward: bool)
    requires |head| % 2 == 0
    ensures ChangeHead(head, forward).Some? && |ChangeHead(head, forward).value| == |head|
    ensures ChangeHead(ChangeHead(head, forward).value, !forward) == Some(head)
  {
    ShuffleUnshuffled(head);
    UnshuffleShuffled(head);
  }

  lemma NoHeads(headDim: nat)
    ensures Times(0, headDim) == 0
  {
  }

  /** Each head keeps its place; within it, position 2i holds what was at i and position 2i + 1 what was at half + i. */
  lemma {:induction false} ShuffledElement<T>(row: seq<T>, heads: nat, headDim: nat, h: nat, i: nat)
    requires PerHead(row, heads, headDim, true).Some? && h < heads && 2 * i < headDim
    ensures var r, base := PerHead(row, heads, headDim, true).value, Times(h, headDim);
            && base + headDim <= |row| == |r|
            && r[base + 2 * i] == row[base + i] && r[base + 2 * i + 1] == row[base + headDim / 2 + i]
    decreases heads
  {
    hide Times, ShuffleHead;
    HeadFits(heads, headDim);
    var cut := Times(heads - 1, headDim);
    var front, last := row[..cut], row[cut..];
    ShuffleIff(row, heads, headDim, true);
    ShuffleIff(front, heads - 1, headDim, true);
    HeadChanges(last, true);
    if h < heads - 1 {
      ShuffledElement(front, heads - 1, headDim, h, i);
    } else {
      HeadElement(last, i);
    }
  }

  /** The shuffle loses nothing and reaches every layout: each change undoes the other. */
  lemma {:induction false} ShuffleInvertible<T>(row: seq<T>, heads: nat, headDim: nat, forward: bool)
    requires PerHead(row, heads, headDim, forward).Some?
    ensures PerHead(PerHead(row, heads, headDim, forward).value, heads, headDim, !forward) == Some(row)
    decreases heads
  {
    hide Times, ChangeHead;
    ShuffleIff(row, heads, headDim, forward);
    NoHeads(headDim);
    if heads > 0 {
      HeadFits(heads, headDim);
      var cut := Times(heads - 1, headDim);
      var front, last := row[..cut], row[cut..];
      ShuffleIff(front, heads - 1, headDim, forward);
      ShuffleInvertible(front, heads - 1, headDim, forward);
      HeadChanges(last, forward);
      var f, l := PerHead(front, heads - 1, headDim, forward).value, ChangeHead(last, forward).value;
      assert (f + l)[..cut] == f && (f + l)[cut..] == l && front + last == row;
    }
  }
}
