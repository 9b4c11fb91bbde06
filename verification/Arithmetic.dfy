/** Facts about products, quotients and remainders of natural numbers. */
module Arithmetic {

  lemma SmallMod(x: nat, m: nat)
    requires x < m
    ensures x % m == x && x / m == 0
  {
  }

  /** Division with remainder is unique. */
  lemma DivModUnique(x: int, m: nat, q: int, r: nat)
    requires 0 <= r < m && x == q * m + r
    ensures x / m == q && x % m == r
  {
    var d := x / m - q;
    assert d * m == r - x % m by {
      assert x == (x / m) * m + x % m;
      assert d * m == (x / m) * m - q * m;
    }
    MulAtLeast(d, m);
  }

  lemma MulAtLeast(d: int, m: nat)
    ensures d >= 1 ==> d * m >= m
    ensures d <= -1 ==> d * m + m <= 0
  {
    assert d * m == (d - 1) * m + m == (d + 1) * m - m;
  }

  lemma DivTwice(x: nat, a: nat, b: nat)
    requires a > 0 && b > 0
    ensures a * b > 0 && (x / a) / b == x / (a * b)
  {
    var q, r := x / a, x % a;
    var p, t := q / b, q % b;
    MulMono(1, b, a);
    assert x == p * (a * b) + (t * a + r) by {
      assert q == p * b + t && x == q * a + r;
      Distribute(p * b, t, a);
      assert (p * b) * a == p * (a * b);
    }
    MulMono(t + 1, b, a);
    Distribute(t, 1, a);
    DivModUnique(x, a * b, p, t * a + r);
  }

  lemma ModDouble(x: nat, p: nat)
    requires p > 0
    ensures x % (2 * p) == x % 2 + 2 * ((x / 2) % p)
  {
    var y := x / 2;
    var q, r := y / p, y % p;
    assert y == q * p + r;
    assert x == 2 * (q * p + r) + x % 2 == q * (2 * p) + (2 * r + x % 2);
    DivModUnique(x, 2 * p, q, 2 * r + x % 2);
  }

  lemma Distribute(a: int, b: int, e: int)
    ensures (a + b) * e == a * e + b * e
  {
  }

  lemma MulMono(a: nat, b: nat, e: nat)
    requires a <= b
    ensures a * e <= b * e
  {
    Distribute(b - a, a, e);
  }

  /** Wrapping at a multiple of m is invisible modulo m. */
  lemma ModMod(x: nat, m: nat, c: nat, w: nat)
    requires m > 0 && c > 0 && w == c * m
    ensures (x % w) % m == x % m
  {
    MulMono(1, c, m);
    var q, r := x / w, x % w;
    assert x == (q * c) * m + r by {
      assert x == q * w + r;
      assert q * (c * m) == (q * c) * m;
    }
    Distribute(q * c, r / m, m);
    DivModUnique(x, m, q * c + r / m, r % m);
  }

  lemma ModScale(h: nat, c: nat, e: nat)
    requires c > 0 && e > 0
    ensures c * e > 0 && (h * e) % (c * e) == (h % c) * e
    ensures (h % c) * e + e <= c * e
  {
    var q, r := h / c, h % c;
    MulMono(1, c, e);
    MulMono(r + 1, c, e);
    Distribute(r, 1, e);
    assert h * e == q * (c * e) + r * e by {
      assert h == q * c + r;
      Distribute(q * c, r, e);
      assert (q * c) * e == q * (c * e);
    }
    DivModUnique(h * e, c * e, q, r * e);
  }

  lemma ModAdd(x: nat, d: nat, m: nat)
    requires 0 < m && d <= m
    ensures (x + d) % m == if x % m + d < m then x % m + d else x % m + d - m
  {
    var q, r := x / m, x % m;
    if r + d < m {
      DivModUnique(x + d, m, q, r + d);
    } else {
      Distribute(q, 1, m);
      DivModUnique(x + d, m, q + 1, r + d - m);
    }
  }

  lemma ModDifference(k: nat, off: nat, c: nat)
    requires k < c
    ensures (off + (k - off) % c) % c == k
  {
    var i, q := (k - off) % c, (k - off) / c;
    assert k - off == q * c + i;
    assert off + i == (-q) * c + k;
    DivModUnique(off + i, c, -q, k);
  }

  // ----- Element counts times element sizes -----

  /** The size of n elements of e bytes: n * e, defined by recursion so that proofs about layouts
      stay linear. */
  ghost function Times(n: nat, e: nat): nat {
    if n == 0 then 0 else Times(n - 1, e) + e
  }

  lemma {:induction false} TimesIsProduct(n: nat, e: nat)
    ensures Times(n, e) == n * e
  {
    if n > 0 {
      TimesIsProduct(n - 1, e);
      Distribute(n - 1, 1, e);
    }
  }

  lemma {:induction false} TimesAdd(a: nat, b: nat, e: nat)
    ensures Times(a + b, e) == Times(a, e) + Times(b, e)
  {
    if b > 0 { TimesAdd(a, b - 1, e); }
  }

  lemma TimesMono(a: nat, b: nat, e: nat)
    ensures a <= b ==> Times(a, e) <= Times(b, e)
    ensures a < b ==> Times(a, e) + e <= Times(b, e)
  {
    if a < b {
      TimesAdd(a + 1, b - a - 1, e);
    }
  }

  lemma {:induction false} TimesOne(n: nat)
    ensures Times(n, 1) == n
  {
    if n > 0 { TimesOne(n - 1); }
  }

  lemma {:induction false} TimesAtLeast(n: nat, e: nat)
    requires e >= 1
    ensures Times(n, e) >= n
  {
    if n > 0 { TimesAtLeast(n - 1, e); }
  }

  lemma TimesMod(h: nat, c: nat, e: nat)
    requires c > 0 && e > 0
    ensures Times(c, e) > 0 && Times(h, e) % Times(c, e) == Times(h % c, e)
    ensures Times(h % c, e) + e <= Times(c, e)
  {
    ModScale(h, c, e);
    TimesIsProduct(h, e);
    TimesIsProduct(c, e);
    TimesIsProduct(h % c, e);
  }
}
