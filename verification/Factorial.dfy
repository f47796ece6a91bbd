/** The two factorials, in `unsigned long` arithmetic of `width` bits, and when their result still says
    something about the true factorial. */
module Factorial {
  import opened Powers

  /** The factorial of a number that is at least 0; 1 for a negative one. */
  function Fact(n: int): (f: nat)
    ensures 0 < f
    decreases if n < 0 then 0 else n
  {
    if n <= 1 then 1 else n * Fact(n - 1)
  }

  /** An `int` converted to `unsigned long`. */
  function ToWord(n: int, width: nat): nat {
    n % Pow2(width)
  }

  /** A product of two `unsigned long` values. */
  function WordMul(a: nat, b: nat, width: nat): nat {
    (a * b) % Pow2(width)
  }

  /** `fact_r`: the product is built on the way back, smallest factor first. */
  function FactR(n: int, width: nat): nat
    decreases if n < 0 then 0 else n
  {
    if n > 1 then WordMul(FactR(n - 1, width), ToWord(n, width), width) else 1
  }

  /** `fact_i`: the product is built largest factor first. The result is the factorial modulo the word
      size, and for every `int` that of the recursive function. */
  method FactI(n: int, width: nat) returns (fact: nat)
    requires 1 <= width
    ensures fact == Fact(n) % Pow2(width)
    ensures fact == FactR(n, width)
  {
    fact := 1;
    var m := n;
    WordOfOne(width);
    while m >= 2
      invariant m <= n
      invariant fact < Pow2(width)
      invariant (fact * Fact(m)) % Pow2(width) == Fact(n) % Pow2(width)
    {
      Regroup(fact, m, Fact(m - 1), width);
      fact := WordMul(fact, ToWord(m, width), width);
      m := m - 1;
    }
    assert fact * Fact(m) == fact;
    DivModUnique(fact, Pow2(width), 0, fact);
    FactRIsFactorial(n, width);
  }

  lemma WordOfOne(width: nat)
    requires 1 <= width
    ensures 1 % Pow2(width) == 1
  {
    assert Pow2(width) == 2 * Pow2(width - 1);
    DivModUnique(1, Pow2(width), 0, 1);
  }

  lemma Regroup(fact: nat, m: int, rest: nat, width: nat)
    ensures (WordMul(fact, ToWord(m, width), width) * rest) % Pow2(width) == (fact * (m * rest)) % Pow2(width)
  {
    var p := Pow2(width);
    MulMod(fact, m, p);
    MulMod(fact % p, m, p);
    MulMod(fact, m % p, p);
    ModOfMod(fact, p);
    ModOfMod(m, p);
    assert WordMul(fact, ToWord(m, width), width) == (fact * m) % p;
    ModOfMod(fact * m, p);
    MulMod((fact * m) % p, rest, p);
    MulMod(fact * m, rest, p);
    assert fact * m * rest == fact * (m * rest);
  }

  lemma ModOfMod(x: int, p: int)
    requires 0 < p
    ensures (x % p) % p == x % p
  {
    DivModUnique(x % p, p, 0, x % p);
  }

  /** The recursive function computes the factorial modulo the word size, for negative numbers too. */
  lemma {:induction false} FactRIsFactorial(n: int, width: nat)
    requires 1 <= width
    ensures FactR(n, width) == Fact(n) % Pow2(width)
    decreases if n < 0 then 0 else n
  {
    if n > 1 {
      FactRIsFactorial(n - 1, width);
      MulMod(Fact(n - 1), n, Pow2(width));
      assert Fact(n - 1) * n == n * Fact(n - 1);
    } else {
      WordOfOne(width);
    }
  }

  /** The number of one bits. */
  function Ones(n: nat): nat {
    if n == 0 then 0 else n % 2 + Ones(n / 2)
  }

  /** `x` has exactly `v` factors two. */
  ghost predicate Twos(x: nat, v: nat) {
    exists odd: nat :: SplitsInto(x, v, odd)
  }

  ghost predicate SplitsInto(x: nat, v: nat, odd: nat) {
    odd % 2 == 1 && x == Pow2(v) * odd
  }

  lemma OddProduct(a: nat, b: nat)
    requires a % 2 == 1 && b % 2 == 1
    ensures (a * b) % 2 == 1
  {
    var c, d := a / 2, b / 2;
    assert a * b == 2 * (2 * c * d + c + d) + 1;
  }

  lemma RegroupFour(p: nat, a: nat, q: nat, b: nat)
    ensures (p * a) * (q * b) == (p * q) * (a * b)
  {
    assert (p * a) * (q * b) == p * (a * (q * b)) == p * (q * (a * b));
  }

  lemma TwosMultiply(x: nat, v: nat, y: nat, w: nat)
    requires Twos(x, v) && Twos(y, w)
    ensures Twos(x * y, v + w)
  {
    var a: nat :| SplitsInto(x, v, a);
    var b: nat :| SplitsInto(y, w, b);
    Pow2Splits(v, w);
    OddProduct(a, b);
    RegroupFour(Pow2(v), a, Pow2(w), b);
    assert SplitsInto(x * y, v + w, a * b);
  }

  lemma TwosOfDouble(x: nat, v: nat)
    requires Twos(x, v)
    ensures Twos(2 * x, v + 1)
  {
    var odd: nat :| SplitsInto(x, v, odd);
    assert 2 * (Pow2(v) * odd) == (2 * Pow2(v)) * odd;
    assert SplitsInto(2 * x, v + 1, odd);
  }

  /** Counting up by one clears the trailing ones and sets the bit above them. */
  lemma {:induction false} TwosOfSuccessor(n: nat)
    ensures Ones(n + 1) <= Ones(n) + 1
    ensures Twos(n + 1, Ones(n) + 1 - Ones(n + 1))
  {
    var m := n / 2;
    if n % 2 == 0 {
      assert (n + 1) / 2 == m && (n + 1) % 2 == 1;
      assert Ones(n + 1) == 1 + Ones(m) && Ones(n) == Ones(m);
      assert SplitsInto(n + 1, 0, n + 1);
    } else {
      assert (n + 1) / 2 == m + 1 && (n + 1) % 2 == 0;
      assert Ones(n) == 1 + Ones(m) && Ones(n + 1) == Ones(m + 1);
      TwosOfSuccessor(m);
      TwosOfDouble(m + 1, Ones(m) + 1 - Ones(m + 1));
      assert n + 1 == 2 * (m + 1);
    }
  }

  lemma FactStep(n: nat)
    requires 0 < n
    ensures Fact(n) == n * Fact(n - 1)
  {
  }

  lemma LegendreStep(m: nat)
    requires Ones(m) <= m && Twos(Fact(m), m - Ones(m))
    ensures Ones(m + 1) <= m + 1 && Twos(Fact(m + 1), m + 1 - Ones(m + 1))
  {
    TwosOfSuccessor(m);
    var v, w := Ones(m) + 1 - Ones(m + 1), m - Ones(m);
    TwosMultiply(m + 1, v, Fact(m), w);
    FactStep(m + 1);
    assert v + w == m + 1 - Ones(m + 1);
  }

  /** Legendre: the factors two of n! are n less its one bits. */
  lemma {:induction false} Legendre(n: nat)
    ensures Ones(n) <= n
    ensures Twos(Fact(n), n - Ones(n))
  {
    if n == 0 {
      assert SplitsInto(Fact(0), 0, 1);
    } else {
      Legendre(n - 1);
      LegendreStep(n - 1);
    }
  }

  lemma DivisibleByPower(x: nat, v: nat, width: nat)
    requires Twos(x, v)
    ensures x % Pow2(width) == 0 <==> width <= v
  {
    var odd: nat :| SplitsInto(x, v, odd);
    if width <= v {
      Pow2Splits(width, v - width);
      EvenlyDivided(x, Pow2(width), Pow2(v - width), odd);
    } else {
      OddIsNotDivisible(x, v, odd, width);
    }
  }

  lemma EvenlyDivided(x: nat, m: nat, q: nat, odd: nat)
    requires 0 < m && x == (m * q) * odd
    ensures x % m == 0
  {
    assert (m * q) * odd == (q * odd) * m;
    DivModUnique(x, m, q * odd, 0);
  }

  lemma OddIsNotDivisible(x: nat, v: nat, odd: nat, width: nat)
    requires SplitsInto(x, v, odd) && v < width
    ensures x % Pow2(width) != 0
  {
    Pow2Splits(v, width - v);
    if x % Pow2(width) == 0 {
      EvenCofactor(Pow2(v), odd, Pow2(width - v - 1), x / Pow2(width), Pow2(width), x);
      assert false;
    }
  }

  lemma EvenCofactor(p: nat, a: nat, r: nat, q: nat, big: nat, x: nat)
    requires 0 < p && x == p * a && big == p * (2 * r) && x == big * q
    ensures a % 2 == 0
  {
    assert big * q == p * (2 * (r * q));
    CancelFactor(p, a, 2 * (r * q));
  }

  lemma CancelFactor(p: int, a: int, b: int)
    requires 0 < p && p * a == p * b
    ensures a == b
  {
    assert p * (a - b) == 0;
    assert a - b > 0 ==> p * (a - b) > 0;
    assert a - b < 0 ==> p * (a - b) < 0;
  }

  /** The result is 0 exactly when n less its one bits reaches the word width. */
  lemma CollapsesExactly(n: nat, width: nat)
    requires 1 <= width
    ensures FactR(n, width) == 0 <==> width <= n - Ones(n)
  {
    FactRIsFactorial(n, width);
    Legendre(n);
    DivisibleByPower(Fact(n), n - Ones(n), width);
  }

  lemma {:induction false} TwosGrow(m: nat, n: nat)
    requires m <= n
    ensures m - Ones(m) <= n - Ones(n)
  {
    if m < n {
      TwosGrow(m, n - 1);
      TwosOfSuccessor(n - 1);
    }
  }

  lemma OnesNear64()
    ensures Ones(65) == 2 && Ones(66) == 2
  {
    assert Ones(1) == 1 && Ones(2) == 1 && Ones(4) == 1 && Ones(8) == 1 && Ones(16) == 1;
    assert Ones(32) == 1 && Ones(33) == 2;
  }

  /** In 64 bits every factorial from 66! on is 0, and no earlier one is. */
  lemma CollapsesFrom66(n: int)
    ensures FactR(n, 64) == 0 <==> 66 <= n
  {
    if 0 <= n {
      OnesNear64();
      CollapsesExactly(n, 64);
      if n <= 65 { TwosGrow(n, 65); } else { TwosGrow(66, n); }
    }
  }

  /** The result is the true factorial exactly when that fits in a word. */
  lemma ExactIffFits(n: int, width: nat)
    requires 1 <= width
    ensures FactR(n, width) == Fact(n) <==> Fact(n) < Pow2(width)
  {
    FactRIsFactorial(n, width);
    if Fact(n) < Pow2(width) {
      DivModUnique(Fact(n), Pow2(width), 0, Fact(n));
    }
  }

  lemma {:induction false} FactGrows(m: int, n: int)
    requires 1 <= m <= n
    ensures Fact(m) <= Fact(n)
    decreases n - m
  {
    if m < n {
      FactGrows(m, n - 1);
      assert n * Fact(n - 1) >= Fact(n - 1);
    }
  }

  lemma Fact20()
    ensures Fact(20) == 2432902008176640000 && Fact(21) == 21 * Fact(20)
  {
    assert Fact(4) == 24;
    assert Fact(8) == 40320;
    assert Fact(12) == 479001600;
    assert Fact(16) == 20922789888000;
  }

  lemma Pow2Of64()
    ensures Pow2(64) == 18446744073709551616
  {
    assert Pow2(4) == 16;
    Pow2Splits(4, 4);
    assert Pow2(8) == 256;
    Pow2Splits(8, 8);
    assert Pow2(16) == 65536;
    Pow2Splits(16, 16);
    assert Pow2(32) == 4294967296;
    Pow2Splits(32, 32);
  }

  /** In 64 bits the result is the true factorial up to 20! and never after; 20! is the number printed. */
  lemma ExactUpTo20(n: int)
    ensures FactR(n, 64) == Fact(n) <==> n <= 20
    ensures FactR(20, 64) == 2432902008176640000
  {
    Fact20();
    Pow2Of64();
    ExactIffFits(n, 64);
    ExactIffFits(20, 64);
    if n < 1 {
      assert Fact(n) == 1;
    } else if n <= 20 {
      FactGrows(n, 20);
    } else {
      FactGrows(21, n);
    }
  }
}
