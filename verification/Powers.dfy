/** Powers of two and remainders. */
module Powers {
  function Pow2(n: nat): (p: nat)
    ensures 0 < p
  {
    if n == 0 then 1 else 2 * Pow2(n - 1)
  }

  lemma {:induction false} Pow2Splits(m: nat, n: nat)
    ensures Pow2(m + n) == Pow2(m) * Pow2(n)
  {
    if m != 0 {
      Pow2Splits(m - 1, n);
    }
  }

  lemma DivModUnique(x: int, m: int, q: int, r: int)
    requires 0 < m && x == q * m + r && 0 <= r < m
    ensures x / m == q && x % m == r
  {
    var d := x / m - q;
    assert d * m == r - x % m by {
      assert x == (x / m) * m + x % m;
      assert (x / m - q) * m == (x / m) * m - q * m;
    }
    assert d >= 1 ==> d * m >= m;
    assert d <= -1 ==> d * m <= -m;
  }

  lemma ModPlusMultiple(q: int, m: int, r: int)
    requires 0 < m
    ensures (q * m + r) % m == r % m
  {
    assert q * m + r == (q + r / m) * m + r % m by {
      assert (q + r / m) * m == q * m + (r / m) * m;
    }
    DivModUnique(q * m + r, m, q + r / m, r % m);
  }

  lemma MulModLeft(x: int, y: int, m: int)
    requires 0 < m
    ensures ((x % m) * y) % m == (x * y) % m
  {
    var q, r := x / m, x % m;
    assert x == q * m + r;
    assert x * y == (q * m + r) * y == (q * m) * y + r * y == (q * y) * m + r * y;
    ModPlusMultiple(q * y, m, r * y);
  }

  /** Reducing the factors first does not change a product's remainder. */
  lemma MulMod(x: int, y: int, m: int)
    requires 0 < m
    ensures ((x % m) * (y % m)) % m == (x * y) % m
  {
    MulModLeft(x, y % m, m);
    MulModLeft(y, x, m);
    assert x * (y % m) == (y % m) * x && x * y == y * x;
  }
}
