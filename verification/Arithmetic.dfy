/** Natural-number division by a variable divisor, in the small steps the solver needs. */
module Arithmetic {

  lemma MulAtLeast(x: nat, m: nat)
    requires x >= 1
    ensures x * m >= m
  {
  }

  lemma {:induction false} MulMonotone(x: nat, y: nat, m: nat)
    requires x <= y
    ensures x * m <= y * m
  {
    if x < y {
      MulMonotone(x, y - 1, m);
      assert y * m == (y - 1) * m + m;
    }
  }

  lemma MulGap(x: nat, y: nat, m: nat)
    requires x < y
    ensures x * m + m <= y * m
  {
    MulMonotone(x + 1, y, m);
    assert (x + 1) * m == x * m + m;
  }

  /** Quotient and remainder are unique. */
  lemma Unique(q: nat, r: nat, d: nat, e: nat, m: nat)
    requires q * m + r == d * m + e && r < m && e < m
    ensures q == d && r == e
  {
    if q < d { MulGap(q, d, m); }
    if d < q { MulGap(d, q, m); }
  }

  lemma DivMod(n: nat, m: nat)
    requires m > 0
    ensures n == (n / m) * m + n % m && n % m < m
  {
  }

  lemma DivModUnique(q: nat, m: nat, r: nat)
    requires r < m
    ensures (q * m + r) / m == q && (q * m + r) % m == r
  {
    var n: nat := q * m + r;
    DivMod(n, m);
    Unique(q, r, n / m, n % m, m);
  }

  /** A position below q blocks of m lies in one of them. */
  lemma DivBelow(n: nat, q: nat, m: nat)
    requires n < q * m
    ensures m > 0 && n / m < q
  {
    assert m > 0;
    DivMod(n, m);
    if n / m >= q { MulMonotone(q, n / m, m); }
  }

  lemma DivModStep(n: nat, m: nat)
    requires m > 0
    ensures n % m == m - 1 ==> (n + 1) / m == n / m + 1 && (n + 1) % m == 0
    ensures n % m < m - 1 ==> (n + 1) / m == n / m && (n + 1) % m == n % m + 1
  {
    DivMod(n, m);
    var q, r := n / m, n % m;
    if r == m - 1 {
      assert n + 1 == (q + 1) * m + 0;
      DivModUnique(q + 1, m, 0);
    } else {
      DivModUnique(q, m, r + 1);
    }
  }

  /** Residues modulo a divisor follow from residues modulo the number. */
  lemma ResidueOfDivisor(g: nat, s: nat, w: nat)
    requires s > 0 && w > 0 && s % w == 0
    ensures (g % s) % w == g % w
  {
    DivMod(g, s);
    DivMod(s, w);
    DivMod(g % s, w);
    Regroup(g / s, s / w, (g % s) / w, (g % s) % w, w);
    DivModUnique((g / s) * (s / w) + (g % s) / w, w, (g % s) % w);
  }

  lemma Regroup(a: nat, b: nat, c: nat, d: nat, w: nat)
    ensures a * (b * w) + (c * w + d) == (a * b + c) * w + d
  {
    assert a * (b * w) == (a * b) * w;
  }

  function Times(a: nat, b: nat): nat {
    a * b
  }

  /** Position d in block q of width m. */
  function At(q: nat, m: nat, d: nat): nat {
    q * m + d
  }

  /** Quotient and remainder by repeated subtraction. */
  function Quot(n: nat, m: nat): nat
    requires m > 0
  {
    if n < m then 0 else Quot(n - m, m) + 1
  }

  function Rem(n: nat, m: nat): (r: nat)
    requires m > 0
    ensures r < m
  {
    if n < m then n else Rem(n - m, m)
  }

  lemma {:induction false} QuotRem(n: nat, m: nat)
    requires m > 0
    ensures n == At(Quot(n, m), m, Rem(n, m))
  {
    if n >= m {
      QuotRem(n - m, m);
      assert (Quot(n - m, m) + 1) * m == Quot(n - m, m) * m + m;
    }
  }

  lemma QuotBelow(n: nat, q: nat, m: nat)
    requires n < Times(q, m)
    ensures m > 0 && Quot(n, m) < q
  {
    assert m > 0;
    QuotRem(n, m);
    if Quot(n, m) >= q { MulMonotone(q, Quot(n, m), m); }
  }

  lemma AtBelow(q: nat, s: nat, m: nat, d: nat)
    requires q < s && d < m
    ensures At(q, m, d) < Times(s, m)
  {
    MulGap(q, s, m);
  }

  lemma AtUnique(q: nat, d: nat, p: nat, e: nat, m: nat)
    requires At(q, m, d) == At(p, m, e) && d < m && e < m
    ensures q == p && d == e
  {
    Unique(q, d, p, e, m);
  }

  lemma TimesPositive(a: nat, b: nat)
    requires a > 0 && b > 0
    ensures Times(a, b) > 0
  {
    MulAtLeast(a, b);
  }
}
