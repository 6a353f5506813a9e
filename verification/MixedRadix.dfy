/** Row-major positions in a grid: digits below their radices, as `reshape` and device meshes number them. */
module MixedRadix {
  import opened Arithmetic

  predicate Digits(ds: seq<nat>, rs: seq<nat>) {
    |ds| == |rs| && forall i :: 0 <= i < |ds| ==> ds[i] < rs[i]
  }

  function Size(rs: seq<nat>): nat {
    if rs == [] then 1 else Times(Size(rs[..|rs| - 1]), rs[|rs| - 1])
  }

  function Encode(ds: seq<nat>, rs: seq<nat>): nat
    requires |ds| == |rs|
  {
    if ds == [] then 0 else At(Encode(ds[..|ds| - 1], rs[..|rs| - 1]), rs[|rs| - 1], ds[|ds| - 1])
  }

  function Decode(n: nat, rs: seq<nat>): (ds: seq<nat>)
    ensures |ds| == |rs|
    decreases |rs|
  {
    if rs == [] then []
    else
      var r := rs[|rs| - 1];
      if r == 0 then Decode(0, rs[..|rs| - 1]) + [0] else Decode(Quot(n, r), rs[..|rs| - 1]) + [Rem(n, r)]
  }

  lemma {:induction false} EncodeBelow(ds: seq<nat>, rs: seq<nat>)
    requires Digits(ds, rs)
    ensures Encode(ds, rs) < Size(rs)
  {
    if ds != [] {
      var d, r := ds[..|ds| - 1], rs[..|rs| - 1];
      EncodeBelow(d, r);
      AtBelow(Encode(d, r), Size(r), rs[|rs| - 1], ds[|ds| - 1]);
    }
  }

  lemma {:induction false} EncodeInjective(a: seq<nat>, b: seq<nat>, rs: seq<nat>)
    requires Digits(a, rs) && Digits(b, rs) && Encode(a, rs) == Encode(b, rs)
    ensures a == b
  {
    if a != [] {
      var n := |a| - 1;
      hide At;
      AtUnique(Encode(a[..n], rs[..n]), a[n], Encode(b[..n], rs[..n]), b[n], rs[n]);
      EncodeInjective(a[..n], b[..n], rs[..n]);
      assert a == a[..n] + [a[n]] && b == b[..n] + [b[n]];
    }
  }

  /** Decoding and encoding undo each other below the size. */
  lemma {:induction false} DecodeEncode(n: nat, rs: seq<nat>)
    requires n < Size(rs)
    ensures Digits(Decode(n, rs), rs) && Encode(Decode(n, rs), rs) == n
  {
    if rs != [] {
      var front, r := rs[..|rs| - 1], rs[|rs| - 1];
      QuotBelow(n, Size(front), r);
      QuotRem(n, r);
      hide Quot, Rem, At, Times;
      DecodeEncode(Quot(n, r), front);
      assert Decode(n, rs)[..|rs| - 1] == Decode(Quot(n, r), front);
    }
  }

  lemma EncodeDecode(ds: seq<nat>, rs: seq<nat>)
    requires Digits(ds, rs)
    ensures Decode(Encode(ds, rs), rs) == ds
  {
    EncodeBelow(ds, rs);
    DecodeEncode(Encode(ds, rs), rs);
    EncodeInjective(Decode(Encode(ds, rs), rs), ds, rs);
  }

  lemma {:induction false} SizePositive(rs: seq<nat>)
    requires forall i :: 0 <= i < |rs| ==> rs[i] > 0
    ensures Size(rs) > 0
  {
    if rs != [] {
      SizePositive(rs[..|rs| - 1]);
      TimesPositive(Size(rs[..|rs| - 1]), rs[|rs| - 1]);
    }
  }

  // ---- Leaving out axes of size one ----

  /** The entries of `xs` at the positions where `rs` exceeds one. */
  function Wide<T>(xs: seq<T>, rs: seq<nat>): seq<T>
    requires |xs| == |rs|
  {
    if xs == [] then []
    else Wide(xs[..|xs| - 1], rs[..|rs| - 1]) + if rs[|rs| - 1] > 1 then [xs[|xs| - 1]] else []
  }

  lemma {:induction false} WideLength<T>(xs: seq<T>, rs: seq<nat>)
    requires |xs| == |rs|
    ensures |Wide(xs, rs)| == |Wide(rs, rs)|
  {
    if xs != [] { WideLength(xs[..|xs| - 1], rs[..|rs| - 1]); }
  }

  /** Axes of size one change neither the size nor any position. */
  lemma {:induction false} WideEncodes(ds: seq<nat>, rs: seq<nat>)
    requires Digits(ds, rs)
    ensures |Wide(ds, rs)| == |Wide(rs, rs)|
    ensures Encode(Wide(ds, rs), Wide(rs, rs)) == Encode(ds, rs)
    ensures Size(Wide(rs, rs)) == Size(rs)
  {
    WideLength(ds, rs);
    if ds != [] {
      var n := |ds| - 1;
      var d, r := ds[..n], rs[..n];
      WideEncodes(d, r);
      WideStep(ds, rs);
      WideStep(rs, rs);
      hide Wide;
      if rs[n] > 1 {
        LastDigit(Wide(d, r), ds[n], Wide(r, r), rs[n]);
      } else {
        assert At(Encode(d, r), 1, 0) == Encode(d, r) && Times(Size(r), 1) == Size(r);
      }
      hide At, Times;
    }
  }

  lemma WideStep<T>(xs: seq<T>, rs: seq<nat>)
    requires |xs| == |rs| > 0
    ensures var n := |rs| - 1;
            Wide(xs, rs) == if rs[n] > 1 then Wide(xs[..n], rs[..n]) + [xs[n]] else Wide(xs[..n], rs[..n])
  {
  }

  lemma LastDigit(ds: seq<nat>, d: nat, rs: seq<nat>, r: nat)
    requires |ds| == |rs|
    ensures Encode(ds + [d], rs + [r]) == At(Encode(ds, rs), r, d)
    ensures Size(rs + [r]) == Times(Size(rs), r)
  {
    assert (ds + [d])[..|ds|] == ds && (rs + [r])[..|rs|] == rs;
  }
}
