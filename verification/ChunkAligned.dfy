/** Splitting an array over devices along its stored chunks, and copying routed experts into the flat layout. */
module ChunkAligned {
  import opened Wrappers
  import opened Arithmetic
  import opened MixedRadix
  import opened Sequences

  // ---- The grid of stored chunks ----

  /** Number of chunks along an axis; an axis with a partial last chunk counts as one. */
  function GridOf(s: nat, c: nat): nat {
    if c > 0 && s % c == 0 then s / c else 1
  }

  function Grid(shape: seq<nat>, chunk: seq<nat>): (g: seq<nat>)
    requires |shape| == |chunk|
    ensures |g| == |shape| && forall a :: 0 <= a < |g| ==> g[a] == GridOf(shape[a], chunk[a])
  {
    seq(|shape|, a requires 0 <= a < |shape| => GridOf(shape[a], chunk[a]))
  }

  // ---- sorted(range(n), key=lambda a: -grid[a]) ----

  predicate AllBelow(axes: seq<nat>, n: nat) {
    forall i :: 0 <= i < |axes| ==> axes[i] < n
  }

  function InsertAxis(order: seq<nat>, a: nat, grid: seq<nat>): seq<nat>
    requires a < |grid| && AllBelow(order, |grid|)
  {
    if order == [] then [a]
    else if grid[order[|order| - 1]] >= grid[a] then order + [a]
    else InsertAxis(order[..|order| - 1], a, grid) + [order[|order| - 1]]
  }

  /** The axes below k, largest grid first, equal ones in their own order. */
  function AxisOrder(grid: seq<nat>, k: nat): (r: seq<nat>)
    requires k <= |grid|
    ensures AllBelow(r, |grid|) && forall x: nat :: x in r <==> x < k
  {
    if k == 0 then []
    else
      InsertKeeps(AxisOrder(grid, k - 1), k - 1, grid);
      InsertAxis(AxisOrder(grid, k - 1), k - 1, grid)
  }

  lemma {:induction false} InsertKeeps(order: seq<nat>, a: nat, grid: seq<nat>)
    requires a < |grid| && AllBelow(order, |grid|)
    ensures AllBelow(InsertAxis(order, a, grid), |grid|)
    ensures forall x :: x in InsertAxis(order, a, grid) <==> x in order || x == a
  {
    if order != [] && grid[order[|order| - 1]] < grid[a] {
      InsertKeeps(order[..|order| - 1], a, grid);
      assert order == order[..|order| - 1] + [order[|order| - 1]];
    }
  }

  /** Axis b is visited before axis a: it has more chunks, or as many and a smaller number. */
  predicate Earlier(grid: seq<nat>, b: nat, a: nat)
    requires b < |grid| && a < |grid|
  {
    grid[b] > grid[a] || (grid[b] == grid[a] && b < a)
  }

  ghost predicate Descending(order: seq<nat>, grid: seq<nat>)
    requires AllBelow(order, |grid|)
  {
    forall i, j :: 0 <= i < j < |order| ==> Earlier(grid, order[i], order[j])
  }

  /** An axis that is to be visited after the others may follow them. */
  lemma AppendSorted(order: seq<nat>, a: nat, grid: seq<nat>)
    requires a < |grid| && AllBelow(order, |grid|)
    requires a !in order && Distinct(order) && Descending(order, grid)
    requires forall x :: x in order ==> Earlier(grid, x, a)
    ensures AllBelow(order + [a], |grid|) && Distinct(order + [a]) && Descending(order + [a], grid)
  {
    assert forall i :: 0 <= i < |order| ==> order[i] in order;
  }

  lemma FrontSorted(order: seq<nat>, grid: seq<nat>)
    requires order != [] && AllBelow(order, |grid|) && Distinct(order) && Descending(order, grid)
    ensures var front, last := order[..|order| - 1], order[|order| - 1];
            && order == front + [last] && last !in front
            && AllBelow(front, |grid|) && Distinct(front) && Descending(front, grid)
            && forall x :: x in front ==> x < |grid| && Earlier(grid, x, last)
  {
    var front := order[..|order| - 1];
    forall x | x in front ensures x < |grid| && Earlier(grid, x, order[|order| - 1]) {
      var i :| 0 <= i < |front| && front[i] == x;
    }
  }

  lemma {:induction false} InsertSorted(order: seq<nat>, a: nat, grid: seq<nat>)
    requires a < |grid| && AllBelow(order, |grid|)
    requires (forall x :: x in order ==> x < a) && Distinct(order) && Descending(order, grid)
    ensures AllBelow(InsertAxis(order, a, grid), |grid|)
    ensures Distinct(InsertAxis(order, a, grid)) && Descending(InsertAxis(order, a, grid), grid)
  {
    if order == [] {
    } else {
      hide Distinct, Descending, AllBelow;
      var front, last := order[..|order| - 1], order[|order| - 1];
      FrontSorted(order, grid);
      assert last in order && forall x :: x in order <==> x in front || x == last;
      if grid[last] >= grid[a] {
        AppendSorted(order, a, grid);
      } else {
        InsertSorted(front, a, grid);
        InsertKeeps(front, a, grid);
        AppendSorted(InsertAxis(front, a, grid), last, grid);
      }
    }
  }

  /** The order visits each axis once, by falling number of chunks, equal ones in their own order. */
  lemma {:induction false} AxisOrderSorted(grid: seq<nat>, k: nat)
    requires k <= |grid|
    ensures Distinct(AxisOrder(grid, k)) && Descending(AxisOrder(grid, k), grid)
  {
    if k > 0 {
      AxisOrderSorted(grid, k - 1);
      InsertSorted(AxisOrder(grid, k - 1), k - 1, grid);
    }
  }

  // ---- Products along the order ----

  /** The product of the entries of `xs` named by `axes`. */
  function ProductOf(xs: seq<nat>, axes: seq<nat>): nat
    requires AllBelow(axes, |xs|)
  {
    if axes == [] then 1 else Times(ProductOf(xs, axes[..|axes| - 1]), xs[axes[|axes| - 1]])
  }

  lemma {:induction false} InsertProduct(xs: seq<nat>, order: seq<nat>, a: nat, grid: seq<nat>)
    requires |xs| == |grid| && a < |grid| && AllBelow(order, |grid|)
    ensures AllBelow(InsertAxis(order, a, grid), |grid|)
    ensures ProductOf(xs, InsertAxis(order, a, grid)) == Times(ProductOf(xs, order), xs[a])
  {
    InsertKeeps(order, a, grid);
    if order != [] && grid[order[|order| - 1]] < grid[a] {
      var front, last := order[..|order| - 1], order[|order| - 1];
      InsertProduct(xs, front, a, grid);
      InsertKeeps(front, a, grid);
      TimesSwap(ProductOf(xs, front), xs[a], xs[last]);
    }
  }

  lemma TimesSwap(p: nat, a: nat, b: nat)
    ensures Times(Times(p, a), b) == Times(Times(p, b), a)
  {
    assert p * a * b == p * b * a;
  }

  /** Multiplying along the order multiplies all axes. */
  lemma {:induction false} OrderProduct(xs: seq<nat>, grid: seq<nat>, k: nat)
    requires |xs| == |grid| && k <= |grid|
    ensures ProductOf(xs, AxisOrder(grid, k)) == Size(xs[..k])
  {
    if k > 0 {
      OrderProduct(xs, grid, k - 1);
      InsertProduct(xs, AxisOrder(grid, k - 1), k - 1, grid);
      assert xs[..k][..k - 1] == xs[..k - 1];
    }
  }

  /** The product of the axes still to come. */
  function Rest(grid: seq<nat>, order: seq<nat>, k: nat): nat
    requires k <= |order| && AllBelow(order, |grid|)
    decreases |order| - k
  {
    if k == |order| then 1 else Times(grid[order[k]], Rest(grid, order, k + 1))
  }

  lemma {:induction false} RestIsAll(grid: seq<nat>, order: seq<nat>, k: nat)
    requires k <= |order| && AllBelow(order, |grid|)
    ensures Times(ProductOf(grid, order[..k]), Rest(grid, order, k)) == ProductOf(grid, order)
    decreases |order| - k
  {
    if k < |order| {
      RestIsAll(grid, order, k + 1);
      assert order[..k + 1][..k] == order[..k];
      TimesAssoc(ProductOf(grid, order[..k]), grid[order[k]], Rest(grid, order, k + 1));
    } else {
      assert order[..k] == order;
      assert Times(ProductOf(grid, order), 1) == ProductOf(grid, order);
    }
  }

  lemma TimesAssoc(a: nat, b: nat, c: nat)
    ensures Times(Times(a, b), c) == Times(a, Times(b, c))
  {
    assert a * b * c == a * (b * c);
  }

  lemma {:induction false} RestPositive(grid: seq<nat>, order: seq<nat>, k: nat)
    requires k <= |order| && AllBelow(order, |grid|) && AllPositive(grid)
    ensures Rest(grid, order, k) > 0
    decreases |order| - k
  {
    if k < |order| {
      RestPositive(grid, order, k + 1);
      TimesPositive(grid[order[k]], Rest(grid, order, k + 1));
    }
  }

  // ---- The greedy loop ----

  predicate Divides(d: nat, g: nat) {
    d > 0 && g % d == 0
  }

  /** `max(d for d in range(1, g + 1) if g % d == 0 and d <= budget)`, None where `max` raises. */
  function LargestDivisor(g: nat, budget: nat): (r: Option<nat>)
    ensures r.None? <==> g == 0 || budget == 0
    ensures r.Some? ==> 1 <= r.value <= budget && r.value <= g && Divides(r.value, g)
    ensures r.Some? ==> forall d :: r.value < d <= g && d <= budget ==> !Divides(d, g)
    ensures r.Some? && g <= budget ==> r.value == g
  {
    if g == 0 || budget == 0 then None else Some(DivisorAtMost(g, if budget < g then budget else g))
  }

  function DivisorAtMost(g: nat, d: nat): (r: nat)
    requires 1 <= d <= g
    ensures 1 <= r <= d && Divides(r, g)
    ensures forall e :: r < e <= d ==> !Divides(e, g)
    ensures d == g ==> r == g
  {
    hide Divides;
    EndDivisors(g);
    if Divides(d, g) then d else DivisorAtMost(g, d - 1)
  }

  lemma EndDivisors(g: nat)
    requires g > 0
    ensures Divides(1, g) && Divides(g, g)
  {
  }

  /** Python's `//` on naturals. */
  function FloorDiv(n: nat, d: nat): nat
    requires d > 0
  {
    n / d
  }

  /** Spending d from the budget keeps the product within the devices, and leaves some budget. */
  lemma Spend(p: nat, d: nat, budget: nat, devices: nat)
    requires 1 <= d <= budget && Times(p, budget) <= devices
    ensures FloorDiv(budget, d) > 0 && Times(Times(p, d), FloorDiv(budget, d)) <= devices
  {
    DivMod(budget, d);
    SpendStep(p, d, budget / d, budget);
  }

  lemma SpendStep(p: nat, d: nat, q: nat, budget: nat)
    requires q * d <= budget < q * d + d && d <= budget
    ensures q > 0 && Times(Times(p, d), q) <= Times(p, budget)
  {
    assert q == 0 ==> q * d == 0;
    MulMonotone(q * d, budget, p);
    assert Times(Times(p, d), q) == (q * d) * p by { assert p * d * q == (q * d) * p; }
  }

  /** When the chunks still to come fit the budget, the next axis is split completely and the others still fit. */
  lemma StillFits(g: nat, rest: nat, budget: nat)
    requires g > 0 && rest > 0 && Times(g, rest) <= budget
    ensures g <= budget && rest <= FloorDiv(budget, g)
  {
    DivMod(budget, g);
    MulAtLeast(rest, g);
    if budget / g < rest { MulGap(budget / g, rest, g); }
  }

  lemma {:induction false} UpdateProduct(xs: seq<nat>, axes: seq<nat>, a: nat, v: nat)
    requires a < |xs| && a !in axes && AllBelow(axes, |xs|)
    ensures ProductOf(xs[a := v], axes) == ProductOf(xs, axes)
  {
    if axes != [] { UpdateProduct(xs, axes[..|axes| - 1], a, v); }
  }

  /** What the loop has settled before its k-th turn. */
  ghost predicate Settled(grid: seq<nat>, order: seq<nat>, k: nat, splits: seq<nat>, budget: nat, devices: nat)
    requires k <= |order| && |splits| == |grid| && AllBelow(order, |grid|)
  {
    && (forall i :: 0 <= i < k ==> grid[order[i]] > 0 && Divides(splits[order[i]], grid[order[i]]))
    && Times(ProductOf(splits, order[..k]), budget) <= devices
    && (devices > 0 ==> budget > 0)
  }

  /** All chunks fit: then every settled axis is split completely, and the rest fits the budget. */
  ghost predicate Complete(grid: seq<nat>, order: seq<nat>, k: nat, splits: seq<nat>, budget: nat)
    requires k <= |order| && |splits| == |grid| && AllBelow(order, |grid|)
  {
    Rest(grid, order, k) <= budget && forall i :: 0 <= i < k ==> splits[order[i]] == grid[order[i]]
  }

  lemma TurnSettles(grid: seq<nat>, order: seq<nat>, k: nat, splits: seq<nat>, budget: nat, devices: nat, d: nat)
    requires k < |order| && |splits| == |grid| && AllBelow(order, |grid|) && Distinct(order)
    requires Settled(grid, order, k, splits, budget, devices)
    requires LargestDivisor(grid[order[k]], budget) == Some(d)
    ensures Settled(grid, order, k + 1, splits[order[k] := d], FloorDiv(budget, d), devices)
  {
    hide Times, Divides, FloorDiv, Descending, LargestDivisor;
    var a := order[k];
    var before := order[..k];
    assert order[..k + 1][..k] == before && order[..k + 1][k] == a;
    assert a !in before;
    UpdateProduct(splits, before, a, d);
    Spend(ProductOf(splits, before), d, budget, devices);
  }

  lemma TurnCompletes(grid: seq<nat>, order: seq<nat>, k: nat, splits: seq<nat>, budget: nat, d: nat)
    requires k < |order| && |splits| == |grid| && AllBelow(order, |grid|) && Distinct(order)
    requires LargestDivisor(grid[order[k]], budget) == Some(d)
    requires Rest(grid, order, k + 1) > 0 && Complete(grid, order, k, splits, budget)
    ensures Complete(grid, order, k + 1, splits[order[k] := d], FloorDiv(budget, d))
  {
    hide Times, Divides, FloorDiv, LargestDivisor;
    StillFits(grid[order[k]], Rest(grid, order, k + 1), budget);
  }

  ghost predicate AllPositive(grid: seq<nat>) {
    forall a :: 0 <= a < |grid| ==> grid[a] > 0
  }

  ghost predicate DivideAll(splits: seq<nat>, grid: seq<nat>) {
    |splits| == |grid| && forall a :: 0 <= a < |grid| ==> Divides(splits[a], grid[a])
  }

  /** The splits of the axes visited before axis a, and 1 for the others. */
  function SplitsBefore(grid: seq<nat>, splits: seq<nat>, a: nat): (r: seq<nat>)
    requires |splits| == |grid| && a < |grid|
    ensures |r| == |grid| && forall b :: 0 <= b < |r| ==> r[b] == if Earlier(grid, b, a) then splits[b] else 1
  {
    seq(|grid|, b requires 0 <= b < |grid| => if Earlier(grid, b, a) then splits[b] else 1)
  }

  /** No axis could be split further, given what the axes visited before it take. */
  ghost predicate Maximal(grid: seq<nat>, splits: seq<nat>, devices: nat) {
    |splits| == |grid| &&
    forall a: nat, d :: a < |grid| && splits[a] < d <= grid[a] && Divides(d, grid[a]) ==>
      Times(d, Size(SplitsBefore(grid, splits, a))) > devices
  }

  /** The loop keeps the exact quotient of the devices, and each settled axis could not be split further. */
  ghost predicate Greedy(grid: seq<nat>, order: seq<nat>, k: nat, splits: seq<nat>, budget: nat, devices: nat)
    requires k <= |order| && |splits| == |grid| && AllBelow(order, |grid|)
  {
    && devices < Times(ProductOf(splits, order[..k]), budget + 1)
    && forall i: nat, d :: i < k && splits[order[i]] < d <= grid[order[i]] && Divides(d, grid[order[i]]) ==>
         Times(d, ProductOf(splits, order[..i])) > devices
  }

  lemma TurnGreedy(grid: seq<nat>, order: seq<nat>, k: nat, splits: seq<nat>, budget: nat, devices: nat, d: nat)
    requires k < |order| && |splits| == |grid| && AllBelow(order, |grid|) && Distinct(order)
    requires Greedy(grid, order, k, splits, budget, devices) && LargestDivisor(grid[order[k]], budget) == Some(d)
    ensures Greedy(grid, order, k + 1, splits[order[k] := d], FloorDiv(budget, d), devices)
  {
    hide Times, Divides, FloorDiv, Descending, ProductOf;
    var a, before, next := order[k], order[..k], splits[order[k] := d];
    forall i: nat | i <= k ensures ProductOf(next, order[..i]) == ProductOf(splits, order[..i]) {
      assert a !in order[..i];
      UpdateProduct(splits, order[..i], a, d);
    }
    ProductStep(next, order, k);
    QuotientKept(ProductOf(splits, before), d, budget, devices);
    hide LargestDivisor;
    forall i: nat, e | i < k + 1 && next[order[i]] < e <= grid[order[i]] && Divides(e, grid[order[i]])
      ensures Times(e, ProductOf(next, order[..i])) > devices
    {
      if i == k {
        TooLarge(grid[a], budget, d, e, ProductOf(splits, before), devices);
      } else {
        assert order[i] != a;
      }
    }
  }

  lemma ProductStep(xs: seq<nat>, order: seq<nat>, k: nat)
    requires k < |order| && AllBelow(order, |xs|)
    ensures ProductOf(xs, order[..k + 1]) == Times(ProductOf(xs, order[..k]), xs[order[k]])
  {
    assert order[..k + 1][..k] == order[..k];
  }

  lemma TooLarge(g: nat, budget: nat, d: nat, e: nat, p: nat, devices: nat)
    requires LargestDivisor(g, budget) == Some(d) && d < e <= g && Divides(e, g) && devices < Times(p, budget + 1)
    ensures Times(e, p) > devices
  {
    MulMonotone(budget + 1, e, p);
    assert p * (budget + 1) == (budget + 1) * p;
  }

  /** The quotient by a product is the quotient of the quotient. */
  lemma QuotientKept(p: nat, d: nat, budget: nat, devices: nat)
    requires d > 0 && devices < Times(p, budget + 1)
    ensures devices < Times(Times(p, d), FloorDiv(budget, d) + 1)
  {
    DivMod(budget, d);
    QuotientStep(p, d, budget / d, budget, devices);
  }

  lemma QuotientStep(p: nat, d: nat, q: nat, budget: nat, devices: nat)
    requires devices < Times(p, budget + 1) && budget < q * d + d
    ensures devices < Times(Times(p, d), q + 1)
  {
    MulMonotone(budget + 1, (q + 1) * d, p);
    assert Times(Times(p, d), q + 1) == (q + 1) * d * p by { assert p * d * (q + 1) == (q + 1) * d * p; }
    assert Times(p, budget + 1) == (budget + 1) * p;
  }

  /** Along the order, the axes before the i-th are those visited before it. */
  lemma {:induction false} MaskedProduct(grid: seq<nat>, order: seq<nat>, splits: seq<nat>, i: nat, m: nat)
    requires |splits| == |grid| && AllBelow(order, |grid|) && i < |order| && m <= |order|
    requires Descending(order, grid)
    ensures ProductOf(SplitsBefore(grid, splits, order[i]), order[..m]) ==
            ProductOf(splits, order[..if m <= i then m else i])
  {
    if m > 0 {
      var masked := SplitsBefore(grid, splits, order[i]);
      MaskedProduct(grid, order, splits, i, m - 1);
      ProductStep(masked, order, m - 1);
      ProductStep(splits, order, m - 1);
      assert m - 1 < i ==> masked[order[m - 1]] == splits[order[m - 1]];
      assert m - 1 > i ==> masked[order[m - 1]] == 1;
      TimesOne(ProductOf(masked, order[..m - 1]));
    } else {
      assert order[..0] == [];
    }
  }

  lemma TimesOne(a: nat)
    ensures Times(a, 1) == a
  {
  }

  lemma BeforeSize(grid: seq<nat>, splits: seq<nat>, i: nat)
    requires |splits| == |grid| && i < |AxisOrder(grid, |grid|)|
    ensures var order := AxisOrder(grid, |grid|);
            Size(SplitsBefore(grid, splits, order[i])) == ProductOf(splits, order[..i])
  {
    hide ProductOf, AxisOrder, Size;
    var order := AxisOrder(grid, |grid|);
    AxisOrderSorted(grid, |grid|);
    MaskedProduct(grid, order, splits, i, |order|);
    OrderProduct(SplitsBefore(grid, splits, order[i]), grid, |grid|);
    assert order[..|order|] == order;
    assert SplitsBefore(grid, splits, order[i])[..|grid|] == SplitsBefore(grid, splits, order[i]);
  }

  lemma GreedyIsMaximal(grid: seq<nat>, splits: seq<nat>, budget: nat, devices: nat)
    requires |splits| == |grid|
    requires var order := AxisOrder(grid, |grid|); Greedy(grid, order, |order|, splits, budget, devices)
    ensures Maximal(grid, splits, devices)
  {
    hide ProductOf, Times, Divides, AxisOrder, Size;
    var order := AxisOrder(grid, |grid|);
    forall a: nat, d | a < |grid| && splits[a] < d <= grid[a] && Divides(d, grid[a])
      ensures Times(d, Size(SplitsBefore(grid, splits, a))) > devices
    {
      assert a in order;
      var i: nat :| i < |order| && order[i] == a;
      BeforeSize(grid, splits, i);
    }
  }

  /** A layout that fits the devices and cannot be refined. */
  ghost predicate Best(grid: seq<nat>, splits: seq<nat>, devices: nat) {
    DivideAll(splits, grid) && Size(splits) <= devices && Maximal(grid, splits, devices)
  }

  /** There is only one. */
  lemma BestUnique(grid: seq<nat>, s: seq<nat>, t: seq<nat>, devices: nat)
    requires AllPositive(grid) && Best(grid, s, devices) && Best(grid, t, devices)
    ensures s == t
  {
    hide Best, AxisOrder;
    BestSame(grid, s, t, devices, |AxisOrder(grid, |grid|)|);
    assert |s| == |t| == |grid| by { BestLengths(grid, s, devices); BestLengths(grid, t, devices); }
    forall a: nat | a < |grid| ensures s[a] == t[a] {
      assert a in AxisOrder(grid, |grid|);
      var i :| 0 <= i < |AxisOrder(grid, |grid|)| && AxisOrder(grid, |grid|)[i] == a;
    }
  }

  lemma BestLengths(grid: seq<nat>, s: seq<nat>, devices: nat)
    requires Best(grid, s, devices)
    ensures |s| == |grid|
  {
  }

  lemma {:induction false} BestSame(grid: seq<nat>, s: seq<nat>, t: seq<nat>, devices: nat, k: nat)
    requires AllPositive(grid) && Best(grid, s, devices) && Best(grid, t, devices) && k <= |AxisOrder(grid, |grid|)|
    ensures |s| == |t| == |grid| && forall i :: 0 <= i < k ==> s[AxisOrder(grid, |grid|)[i]] == t[AxisOrder(grid, |grid|)[i]]
  {
    hide AxisOrder, Best;
    BestLengths(grid, s, devices);
    BestLengths(grid, t, devices);
    if k > 0 {
      var order := AxisOrder(grid, |grid|);
      BestSame(grid, s, t, devices, k - 1);
      SameProduct(s, t, order, k - 1);
      NotLarger(grid, s, t, devices, k - 1);
      NotLarger(grid, t, s, devices, k - 1);
    }
  }

  lemma {:induction false} SameProduct(s: seq<nat>, t: seq<nat>, order: seq<nat>, k: nat)
    requires |s| == |t| && k <= |order| && AllBelow(order, |s|) && forall i :: 0 <= i < k ==> s[order[i]] == t[order[i]]
    ensures ProductOf(s, order[..k]) == ProductOf(t, order[..k])
  {
    if k > 0 {
      SameProduct(s, t, order, k - 1);
      ProductStep(s, order, k - 1);
      ProductStep(t, order, k - 1);
    }
  }

  /** With the same splits before it, no axis is split more than in a layout that cannot be refined. */
  lemma NotLarger(grid: seq<nat>, s: seq<nat>, t: seq<nat>, devices: nat, i: nat)
    requires AllPositive(grid) && Best(grid, s, devices) && Best(grid, t, devices) && |s| == |t| == |grid|
    requires var order := AxisOrder(grid, |grid|); i < |order| && ProductOf(s, order[..i]) == ProductOf(t, order[..i])
    ensures t[AxisOrder(grid, |grid|)[i]] <= s[AxisOrder(grid, |grid|)[i]]
  {
    hide ProductOf, AxisOrder, Size, Times;
    var order := AxisOrder(grid, |grid|);
    var a := order[i];
    BeforeSize(grid, s, i);
    SplitFits(grid, t, i);
    DivisorBelow(t[a], grid[a]);
    TimesOnes(t[a], ProductOf(t, order[..i]));
    assert Divides(t[a], grid[a]);
  }

  lemma TimesOnes(a: nat, b: nat)
    ensures Times(a, b) == Times(b, a)
  {
  }

  lemma DivisorBelow(d: nat, g: nat)
    requires Divides(d, g) && g > 0
    ensures d <= g
  {
  }

  lemma SplitFits(grid: seq<nat>, t: seq<nat>, i: nat)
    requires DivideAll(t, grid) && i < |AxisOrder(grid, |grid|)|
    ensures var order := AxisOrder(grid, |grid|); Times(ProductOf(t, order[..i]), t[order[i]]) <= Size(t)
  {
    hide ProductOf, AxisOrder, Size, Times;
    var order := AxisOrder(grid, |grid|);
    ProductStep(t, order, i);
    PrefixProduct(t, order, i + 1, |order|);
    OrderProduct(t, grid, |grid|);
    assert order[..|order|] == order && t[..|grid|] == t;
  }

  lemma {:induction false} PrefixProduct(xs: seq<nat>, order: seq<nat>, k: nat, m: nat)
    requires k <= m <= |order| && AllBelow(order, |xs|) && AllPositive(xs)
    ensures ProductOf(xs, order[..k]) <= ProductOf(xs, order[..m])
  {
    if k < m {
      PrefixProduct(xs, order, k, m - 1);
      ProductStep(xs, order, m - 1);
      TimesAtLeast(ProductOf(xs, order[..m - 1]), xs[order[m - 1]]);
    }
  }

  /** How often each axis is split. None stands for the exception `max` raises. */
  method ChunkSplits(grid: seq<nat>, devices: nat) returns (result: Option<seq<nat>>)
    ensures result.Some? <==> grid == [] || (devices > 0 && AllPositive(grid))
    ensures result.Some? ==> DivideAll(result.value, grid)
    ensures result.Some? && devices > 0 ==> Size(result.value) <= devices
    ensures result.Some? && devices > 0 ==> (result.value == grid <==> Size(grid) <= devices)
    ensures result.Some? ==> Maximal(grid, result.value, devices)
  {
    hide Settled, Greedy, Maximal, Complete, ProductOf, Rest, Divides, Size, Distinct, Descending, FloorDiv, AxisOrder, AllPositive, DivideAll,
      LargestDivisor;
    var splits: seq<nat> := seq(|grid|, i => 1);
    var budget := devices;
    var order := AxisOrder(grid, |grid|);
    AxisOrderSorted(grid, |grid|);
    ghost var fits := AllPositive(grid) && Size(grid) <= devices;
    Start(grid, splits, devices);
    for k := 0 to |order|
      invariant |splits| == |grid| && if k == 0 then budget == devices else devices > 0
      invariant Settled(grid, order, k, splits, budget, devices) && Greedy(grid, order, k, splits, budget, devices)
      invariant fits ==> Complete(grid, order, k, splits, budget)
    {
      var d := LargestDivisor(grid[order[k]], budget);
      if d.None? {
        NoDivisor(grid, order, k, splits, budget, devices);
        return None;
      }
      TurnSettles(grid, order, k, splits, budget, devices, d.value);
      TurnGreedy(grid, order, k, splits, budget, devices, d.value);
      if fits {
        RestPositive(grid, order, k + 1);
        TurnCompletes(grid, order, k, splits, budget, d.value);
      }
      splits := splits[order[k] := d.value];
      budget := FloorDiv(budget, d.value);
    }
    assert grid != [] ==> 0 in order;
    OrderProduct(splits, grid, |grid|);
    assert splits[..|grid|] == splits;
    Finish(grid, order, splits, budget, devices);
    GreedyIsMaximal(grid, splits, budget, devices);
    result := Some(splits);
  }

  lemma NoDivisor(grid: seq<nat>, order: seq<nat>, k: nat, splits: seq<nat>, budget: nat, devices: nat)
    requires k < |order| && |splits| == |grid| && AllBelow(order, |grid|)
    requires Settled(grid, order, k, splits, budget, devices) && LargestDivisor(grid[order[k]], budget).None?
    ensures grid != [] && (devices == 0 || !AllPositive(grid))
  {
    assert order[k] < |grid|;
  }

  lemma Start(grid: seq<nat>, splits: seq<nat>, devices: nat)
    requires |splits| == |grid| && forall a :: 0 <= a < |grid| ==> splits[a] == 1
    ensures var order := AxisOrder(grid, |grid|);
            Settled(grid, order, 0, splits, devices, devices) && Greedy(grid, order, 0, splits, devices, devices) &&
            (Size(grid) <= devices ==> Complete(grid, order, 0, splits, devices))
  {
    var order := AxisOrder(grid, |grid|);
    assert order[..0] == [] && ProductOf(splits, []) == 1 && ProductOf(grid, []) == 1;
    RestIsAll(grid, order, 0);
    OrderProduct(grid, grid, |grid|);
    assert grid[..|grid|] == grid;
  }

  lemma Finish(grid: seq<nat>, order: seq<nat>, splits: seq<nat>, budget: nat, devices: nat)
    requires |splits| == |grid| && AllBelow(order, |grid|) && forall a: nat :: a < |grid| ==> a in order
    requires ProductOf(splits, order) == Size(splits)
    requires Settled(grid, order, |order|, splits, budget, devices)
    requires AllPositive(grid) && Size(grid) <= devices ==> Complete(grid, order, |order|, splits, budget)
    ensures AllPositive(grid) && DivideAll(splits, grid)
    ensures devices > 0 ==> Size(splits) <= devices && (splits == grid <==> Size(grid) <= devices)
  {
    hide Divides, Size, ProductOf, Rest, Times, AxisOrder;
    assert order[..|order|] == order;
    forall a | 0 <= a < |grid|
      ensures grid[a] > 0 && Divides(splits[a], grid[a])
      ensures Complete(grid, order, |order|, splits, budget) ==> splits[a] == grid[a]
    {
      assert a in order;
      var i :| 0 <= i < |order| && order[i] == a;
    }
    TimesAtLeast(Size(splits), budget);
    assert Complete(grid, order, |order|, splits, budget) ==> splits == grid;
  }

  lemma TimesAtLeast(a: nat, b: nat)
    ensures b > 0 ==> Times(a, b) >= a
  {
    if b > 0 { MulAtLeast(b, a); }
  }

  // ---- chunk_aligned_sharding ----

  /** The splits of each axis, no sharding at all, or the exception of `max` on an empty sequence. */
  datatype Sharding = Splits(splits: seq<nat>) | NoSharding | Raises

  method ChunkAlignedSharding(shape: seq<nat>, chunkShape: Option<seq<nat>>, devices: nat) returns (r: Sharding)
    ensures r == NoSharding <==> chunkShape.None? || |chunkShape.value| != |shape|
    ensures r.Splits? ==> Layout(shape, chunkShape.value, r.splits)
    ensures r.Splits? && devices > 0 ==>
              Size(r.splits) <= devices &&
              (r.splits == Grid(shape, chunkShape.value) <==> Size(Grid(shape, chunkShape.value)) <= devices)
    ensures r.Splits? ==> Maximal(Grid(shape, chunkShape.value), r.splits, devices)
    ensures (forall a :: 0 <= a < |shape| ==> shape[a] > 0) && devices > 0 ==> r != Raises
    ensures r == Raises ==> devices == 0 || exists a :: 0 <= a < |shape| && shape[a] == 0
  {
    if chunkShape.None? || |chunkShape.value| != |shape| { return NoSharding; }
    var grid := Grid(shape, chunkShape.value);
    var splits := ChunkSplits(grid, devices);
    forall a | 0 <= a < |shape| && shape[a] > 0 ensures grid[a] > 0 {
      GridPositive(shape[a], chunkShape.value[a]);
    }
    r := if splits.None? then Raises else Splits(splits.value);
  }

  lemma GridPositive(s: nat, c: nat)
    requires s > 0
    ensures GridOf(s, c) > 0
  {
    if c > 0 && s % c == 0 { DivMod(s, c); }
  }

  /** Every axis is split into a divisor of its number of whole chunks. */
  ghost predicate Layout(shape: seq<nat>, chunk: seq<nat>, splits: seq<nat>) {
    && |chunk| == |shape| == |splits|
    && forall a :: 0 <= a < |shape| ==> Divides(splits[a], GridOf(shape[a], chunk[a]))
  }

  /** Block of a position along one axis of size s split p times. */
  function BlockIndex(i: nat, s: nat, p: nat): nat {
    if p == 0 || s / p == 0 then 0 else i / (s / p)
  }

  lemma DivDiv(i: nat, c: nat, m: nat)
    requires c > 0 && m > 0
    ensures Times(m, c) > 0 && i / Times(m, c) == (i / c) / m
  {
    DivMod(i, c);
    DivMod(i / c, m);
    TimesPositive(m, c);
    DivDivSteps(i, c, m, i / c, i % c, (i / c) / m, (i / c) % m);
  }

  lemma DivDivSteps(i: nat, c: nat, m: nat, q: nat, r: nat, p: nat, e: nat)
    requires i == q * c + r && r < c && q == p * m + e && e < m
    ensures Times(m, c) > 0 && i / Times(m, c) == p
  {
    MulGap(e, m, c);
    assert i == p * Times(m, c) + (e * c + r) by { assert (p * m + e) * c == p * (m * c) + e * c; }
    DivModUnique(p, Times(m, c), e * c + r);
  }

  /** Along one axis, the block index is below the split count and marks an interval of equal length. */
  lemma BlockInterval(s: nat, c: nat, p: nat, i: nat, k: nat)
    requires i < s && Divides(p, GridOf(s, c))
    ensures BlockIndex(i, s, p) < p
    ensures BlockIndex(i, s, p) == k <==> Times(k, s / p) <= i < Times(k, s / p) + s / p
  {
    BlocksExact(s, c, p);
    var b := s / p;
    hide Divides, GridOf;
    DivMod(i, b);
    DivBelow(i, p, b);
    if Times(k, b) <= i < Times(k, b) + b { Unique(i / b, i % b, k, i - Times(k, b), b); }
  }

  lemma BlocksExact(s: nat, c: nat, p: nat)
    requires s > 0 && Divides(p, GridOf(s, c))
    ensures s / p > 0 && Times(p, s / p) == s
    ensures c > 0 && s % c == 0 ==> s / p == Times(s / c / p, c) && s / c / p > 0
    ensures !(c > 0 && s % c == 0) ==> p == 1
  {
    if c > 0 && s % c == 0 {
      var g := s / c;
      DivMod(s, c);
      DivMod(g, p);
      var m := g / p;
      assert s == Times(m, c) * p + 0 by { assert m * p * c == (m * c) * p; }
      DivModUnique(Times(m, c), p, 0);
      assert m == 0 ==> g == 0 * p;
      assert m > 0 by { assert g == 0 ==> s == 0 * c; }
      TimesPositive(m, c);
      assert Times(p, Times(m, c)) == Times(m, c) * p;
    } else {
      DivMod(1, p);
      if p > 1 { DivModUnique(0, p, 1); }
      DivModUnique(s, 1, 0);
    }
  }

  lemma SameChunkSameBlock(s: nat, c: nat, p: nat, i: nat, j: nat)
    requires s > 0 && Divides(p, GridOf(s, c)) && i < s && j < s && c > 0 && i / c == j / c
    ensures BlockIndex(i, s, p) == BlockIndex(j, s, p)
  {
    BlocksExact(s, c, p);
    if s % c == 0 {
      DivDiv(i, c, s / c / p);
      DivDiv(j, c, s / c / p);
    } else {
      DivModUnique(s, 1, 0);
      DivModUnique(0, s, i);
      DivModUnique(0, s, j);
    }
  }

  /** Block coordinates of an element. */
  function BlockOf(index: seq<nat>, shape: seq<nat>, splits: seq<nat>): (r: seq<nat>)
    requires |index| == |shape| == |splits|
    ensures |r| == |index| && forall a :: 0 <= a < |r| ==> r[a] == BlockIndex(index[a], shape[a], splits[a])
  {
    seq(|index|, a requires 0 <= a < |index| => BlockIndex(index[a], shape[a], splits[a]))
  }

  /** The device of an element: the mesh has one axis per axis that is split, numbered row by row. */
  function DeviceOf(index: seq<nat>, shape: seq<nat>, splits: seq<nat>): nat
    requires |index| == |shape| == |splits|
  {
    WideLength(BlockOf(index, shape, splits), splits);
    Encode(Wide(BlockOf(index, shape, splits), splits), Wide(splits, splits))
  }

  /** The element lies in the box that starts at block `at` of each axis. */
  ghost predicate InBlock(index: seq<nat>, shape: seq<nat>, splits: seq<nat>, at: seq<nat>)
    requires |index| == |shape| == |splits| == |at| && forall a :: 0 <= a < |splits| ==> splits[a] > 0
  {
    forall a :: 0 <= a < |shape| ==>
      var b := shape[a] / splits[a];
      Times(at[a], b) <= index[a] < Times(at[a], b) + b
  }

  lemma DeviceNumber(index: seq<nat>, shape: seq<nat>, chunk: seq<nat>, splits: seq<nat>)
    requires Layout(shape, chunk, splits) && Digits(index, shape)
    ensures var block := BlockOf(index, shape, splits);
            Digits(block, splits) && DeviceOf(index, shape, splits) == Encode(block, splits) < Size(splits)
  {
    var block := BlockOf(index, shape, splits);
    forall a | 0 <= a < |shape| ensures block[a] < splits[a] {
      BlockInterval(shape[a], chunk[a], splits[a], index[a], 0);
    }
    WideEncodes(block, splits);
    EncodeBelow(block, splits);
  }

  lemma BlockOfIff(index: seq<nat>, shape: seq<nat>, chunk: seq<nat>, splits: seq<nat>, at: seq<nat>)
    requires Layout(shape, chunk, splits) && Digits(index, shape) && |at| == |shape|
    ensures BlockOf(index, shape, splits) == at <==> InBlock(index, shape, splits, at)
  {
    var block := BlockOf(index, shape, splits);
    forall a | 0 <= a < |shape|
      ensures var b := shape[a] / splits[a];
              block[a] == at[a] <==> Times(at[a], b) <= index[a] < Times(at[a], b) + b
    {
      BlockInterval(shape[a], chunk[a], splits[a], index[a], at[a]);
    }
    hide BlockIndex, Times, Divides;
    if InBlock(index, shape, splits, at) { assert block == at; }
  }

  /** Every element lies on exactly one of the first `prod(splits)` devices: the one whose block holds it. */
  lemma BlocksTile(index: seq<nat>, shape: seq<nat>, chunk: seq<nat>, splits: seq<nat>, device: nat)
    requires Layout(shape, chunk, splits) && Digits(index, shape) && device < Size(splits)
    ensures DeviceOf(index, shape, splits) < Size(splits)
    ensures DeviceOf(index, shape, splits) == device <==> InBlock(index, shape, splits, Decode(device, splits))
  {
    var block := BlockOf(index, shape, splits);
    DeviceNumber(index, shape, chunk, splits);
    DecodeEncode(device, splits);
    BlockOfIff(index, shape, chunk, splits, Decode(device, splits));
    hide InBlock, BlockOf, Encode, Decode, DeviceOf;
    if Encode(block, splits) == device { EncodeInjective(block, Decode(device, splits), splits); }
  }

  /** All elements of one stored chunk lie on one device, so each chunk is read once. */
  lemma ChunkOnOneDevice(i: seq<nat>, j: seq<nat>, shape: seq<nat>, chunk: seq<nat>, splits: seq<nat>)
    requires Layout(shape, chunk, splits) && Digits(i, shape) && Digits(j, shape)
    requires forall a :: 0 <= a < |shape| ==> chunk[a] > 0 && i[a] / chunk[a] == j[a] / chunk[a]
    ensures DeviceOf(i, shape, splits) == DeviceOf(j, shape, splits)
  {
    forall a | 0 <= a < |shape| ensures BlockOf(i, shape, splits)[a] == BlockOf(j, shape, splits)[a] {
      SameChunkSameBlock(shape[a], chunk[a], splits[a], i[a], j[a]);
    }
    assert BlockOf(i, shape, splits) == BlockOf(j, shape, splits);
  }
}
