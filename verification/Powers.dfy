/** Powers of two and the little arithmetic the other modules share. */
module Powers {

  function Pow2(k: nat): (r: nat)
    ensures r > 0
  {
    if k == 0 then 1 else 2 * Pow2(k - 1)
  }

  lemma {:induction false} Pow2Monotone(a: nat, b: nat)
    ensures a <= b ==> Pow2(a) <= Pow2(b)
  {
    if a < b { Pow2Monotone(a, b - 1); }
  }

  lemma Pow2Next(a: nat)
    ensures Pow2(0) == 1 && Pow2(a + 1) == 2 * Pow2(a)
  {
  }

  lemma TwiceProduct(x: nat, y: nat)
    ensures x * (2 * y) == 2 * (x * y) && x * 1 == x
  {
  }

  lemma {:induction false} Pow2Add(a: nat, b: nat)
    ensures Pow2(a + b) == Pow2(a) * Pow2(b)
  {
    hide Pow2;
    if b == 0 {
      Pow2Next(0);
      TwiceProduct(Pow2(a), 0);
    } else {
      Pow2Add(a, b - 1);
      Pow2Next(b - 1);
      Pow2Next(a + b - 1);
      TwiceProduct(Pow2(a), Pow2(b - 1));
    }
  }

  lemma Pow2Values()
    ensures Pow2(8) == 0x100 && Pow2(16) == 0x1_0000 && Pow2(32) == 0x1_0000_0000
  {
    assert Pow2(4) == 16;
    Pow2Add(4, 4);
    Pow2Add(8, 8);
    Pow2Add(16, 16);
  }

  function Min(x: nat, y: nat): nat { if x < y then x else y }

  lemma ProductMonotone(a: nat, b: nat, c: nat)
    requires a <= b
    ensures a * c <= b * c
  {
  }

  lemma ProductCancel(a: nat, b: nat, c: nat)
    requires c > 0
    ensures a * c < b * c <==> a < b
  {
    if a < b { ProductMonotone(a + 1, b, c); } else { ProductMonotone(b, a, c); }
  }

  lemma ProductBound(m: int, d: int)
    requires m > 0
    ensures d >= 1 ==> m * d >= m
    ensures d <= -1 ==> m * d <= -m
  {
  }

  /** Quotient and remainder are the only way to write x as m*q + r. */
  lemma DivModUnique(x: int, m: int, q: int, r: int)
    requires m > 0 && 0 <= r < m && x == m * q + r
    ensures x / m == q && x % m == r
  {
    var d := x / m - q;
    assert m * d == r - x % m;
    ProductBound(m, d);
  }

  /** The remainder by c*m is the remainder by m and the next base-c digit above it. */
  lemma NextDigit(x: nat, m: nat, c: nat)
    requires m > 0 && c > 0
    ensures m * c > 0 && x % (m * c) == x % m + m * (x / m % c)
  {
    var q, d := x / m / c, x / m % c;
    assert x == m * (x / m) + x % m;
    assert x / m == c * q + d;
    assert x == (m * c) * q + (m * d + x % m) by {
      assert m * (c * q + d) == (m * c) * q + m * d;
    }
    ProductMonotone(d, c - 1, m);
    assert m * d + x % m < m * c;
    DivModUnique(x, m * c, q, m * d + x % m);
  }

  /** Quotient and remainder under names of their own, so that a proof can leave their
      definitions aside. */
  function Quot(x: nat, m: nat): nat
    requires m > 0
  {
    x / m
  }

  function Rem(x: nat, m: nat): (r: nat)
    requires m > 0
    ensures r < m
  {
    x % m
  }

  lemma QuotRem(x: nat, m: nat)
    requires m > 0
    ensures x == m * Quot(x, m) + Rem(x, m)
  {
  }

  lemma QuotRemUnique(x: nat, m: nat, q: nat, r: nat)
    requires m > 0 && r < m && x == m * q + r
    ensures Quot(x, m) == q && Rem(x, m) == r
  {
    DivModUnique(x, m, q, r);
  }
}
