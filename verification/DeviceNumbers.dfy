/** Device numbers: a major and a minor number packed into one unsigned word.

    The number of minor bits and the word width are parameters; the kernel's macros have 20 and 32. */
module DeviceNumbers {
  import opened Powers

  const MINORBITS: nat := 20
  const DEV_BITS: nat := 32

  function BitAnd(x: nat, y: nat): nat {
    if x == 0 || y == 0 then 0 else (x % 2) * (y % 2) + 2 * BitAnd(x / 2, y / 2)
  }

  function BitOr(x: nat, y: nat): nat {
    if x == 0 then y
    else if y == 0 then x
    else (if x % 2 == 1 || y % 2 == 1 then 1 else 0) + 2 * BitOr(x / 2, y / 2)
  }

  /** The low `width` bits of `x`, the others dropped. */
  function Truncate(x: nat, width: nat): nat {
    if width == 0 then 0 else x % 2 + 2 * Truncate(x / 2, width - 1)
  }

  /** `x << n` in an unsigned word of `width` bits: each step puts a zero bit below and drops the bit that
      leaves the word. */
  function ShiftLeft(x: nat, n: nat, width: nat): nat {
    if n == 0 then Truncate(x, width) else Truncate(2 * ShiftLeft(x, n - 1, width), width)
  }

  /** `x >> n`: each step drops the lowest bit. */
  function ShiftRight(x: nat, n: nat): nat {
    if n == 0 then x else ShiftRight(x / 2, n - 1)
  }

  lemma {:induction false} TruncateIsMod(x: nat, width: nat)
    ensures Truncate(x, width) == x % Pow2(width)
  {
    if width != 0 {
      TruncateIsMod(x / 2, width - 1);
      HalfOfRemainder(x, Pow2(width - 1));
    }
  }

  lemma DoubledRemainder(x: nat, m: nat)
    requires 0 < m
    ensures (2 * (x % m)) % m == (2 * x) % m
  {
    var q := x / m;
    assert x == q * m + x % m;
    assert 2 * x == (2 * q) * m + 2 * (x % m);
    ModPlusMultiple(2 * q, m, 2 * (x % m));
  }

  /** Shifting left multiplies by a power of two, modulo the word size. */
  lemma {:induction false} ShiftLeftIsProduct(x: nat, n: nat, width: nat)
    ensures ShiftLeft(x, n, width) == (x * Pow2(n)) % Pow2(width)
  {
    if n == 0 {
      TruncateIsMod(x, width);
    } else {
      ShiftLeftIsProduct(x, n - 1, width);
      TruncateIsMod(2 * ShiftLeft(x, n - 1, width), width);
      DoubledRemainder(x * Pow2(n - 1), Pow2(width));
      assert 2 * (x * Pow2(n - 1)) == x * Pow2(n);
    }
  }

  lemma HalveThenDivide(x: nat, p: nat)
    requires 0 < p
    ensures x / (2 * p) == (x / 2) / p
  {
    HalfOfRemainder(x, p);
    var q, r := (x / 2) / p, (x / 2) % p;
    assert x / 2 == q * p + r;
    assert x == q * (2 * p) + (x % 2 + 2 * r);
    DivModUnique(x, 2 * p, q, x % 2 + 2 * r);
  }

  /** Shifting right divides by a power of two. */
  lemma {:induction false} ShiftRightIsQuotient(x: nat, n: nat)
    ensures ShiftRight(x, n) == x / Pow2(n)
  {
    if n != 0 {
      ShiftRightIsQuotient(x / 2, n - 1);
      HalveThenDivide(x, Pow2(n - 1));
    }
  }

  /** Bit number `k`. */
  predicate Bit(x: nat, k: nat) {
    if k == 0 then x % 2 == 1 else Bit(x / 2, k - 1)
  }

  lemma {:induction false} ZeroHasNoBits(k: nat)
    ensures !Bit(0, k)
  {
    if k != 0 {
      ZeroHasNoBits(k - 1);
    }
  }

  lemma {:induction false} OrBit(x: nat, y: nat, k: nat)
    ensures Bit(BitOr(x, y), k) <==> Bit(x, k) || Bit(y, k)
  {
    ZeroHasNoBits(k);
    if x != 0 && y != 0 && k != 0 {
      OrBit(x / 2, y / 2, k - 1);
    }
  }

  lemma {:induction false} AndBit(x: nat, y: nat, k: nat)
    ensures Bit(BitAnd(x, y), k) <==> Bit(x, k) && Bit(y, k)
  {
    ZeroHasNoBits(k);
    if x != 0 && y != 0 {
      BitsTimes(x % 2, y % 2);
      if k != 0 {
        AndBit(x / 2, y / 2, k - 1);
      }
    }
  }

  lemma BitsTimes(a: nat, b: nat)
    requires a < 2 && b < 2
    ensures a * b == if a == 1 && b == 1 then 1 else 0
  {
  }

  lemma {:induction false} TruncateBit(x: nat, width: nat, k: nat)
    ensures Bit(Truncate(x, width), k) <==> k < width && Bit(x, k)
  {
    ZeroHasNoBits(k);
    if width != 0 && k != 0 {
      TruncateBit(x / 2, width - 1, k - 1);
    }
  }

  lemma {:induction false} ShiftLeftBit(x: nat, n: nat, width: nat, k: nat)
    ensures Bit(ShiftLeft(x, n, width), k) <==> n <= k < width && Bit(x, k - n)
  {
    if n == 0 {
      TruncateBit(x, width, k);
    } else {
      var y := ShiftLeft(x, n - 1, width);
      TruncateBit(2 * y, width, k);
      if k != 0 {
        assert (2 * y) / 2 == y;
        ShiftLeftBit(x, n - 1, width, k - 1);
      }
    }
  }

  lemma {:induction false} ShiftRightBit(x: nat, n: nat, k: nat)
    ensures Bit(ShiftRight(x, n), k) <==> Bit(x, k + n)
  {
    if n != 0 {
      ShiftRightBit(x / 2, n - 1, k);
    }
  }

  function MinorMask(bits: nat, width: nat): nat
    requires bits < width
  {
    Pow2Bound(bits, width);
    ShiftLeft(1, bits, width) - 1
  }

  function Major(dev: nat, bits: nat): nat {
    ShiftRight(dev, bits)
  }

  function Minor(dev: nat, bits: nat, width: nat): nat
    requires bits < width
  {
    BitAnd(dev, MinorMask(bits, width))
  }

  function MkDev(major: nat, minor: nat, bits: nat, width: nat): nat {
    BitOr(ShiftLeft(major, bits, width), minor)
  }

  /** What the three macros do to each bit, for all arguments, in range or not. */
  lemma MacroBits(dev: nat, major: nat, minor: nat, bits: nat, width: nat, k: nat)
    requires bits < width
    ensures Bit(Major(dev, bits), k) <==> Bit(dev, k + bits)
    ensures Bit(Minor(dev, bits, width), k) <==> k < bits && Bit(dev, k)
    ensures Bit(MkDev(major, minor, bits, width), k) <==> (bits <= k < width && Bit(major, k - bits)) || Bit(minor, k)
  {
    ShiftRightBit(dev, bits, k);
    AndBit(dev, MinorMask(bits, width), k);
    Pow2Bound(bits, width);
    MaskBit(bits, k);
    OrBit(ShiftLeft(major, bits, width), minor, k);
    ShiftLeftBit(major, bits, width, k);
  }

  lemma {:induction false} MaskBit(bits: nat, k: nat)
    ensures Bit(Pow2(bits) - 1, k) <==> k < bits
  {
    if bits == 0 {
      ZeroHasNoBits(k);
    } else {
      var p := Pow2(bits - 1);
      assert (2 * p - 1) / 2 == p - 1 && (2 * p - 1) % 2 == 1;
      if k != 0 {
        MaskBit(bits - 1, k - 1);
      }
    }
  }

  lemma Pow2Bound(bits: nat, width: nat)
    requires bits < width
    ensures 0 < Pow2(bits) < Pow2(width)
    ensures ShiftLeft(1, bits, width) == Pow2(bits)
  {
    Pow2Splits(bits, width - bits);
    assert Pow2(width - bits) == 2 * Pow2(width - bits - 1);
    assert Pow2(bits) * Pow2(width - bits) >= Pow2(bits) * 2;
    ShiftLeftIsProduct(1, bits, width);
    DivModUnique(Pow2(bits), Pow2(width), 0, Pow2(bits));
  }

  lemma HalfOfRemainder(x: nat, p: nat)
    requires 0 < p
    ensures x % (2 * p) == x % 2 + 2 * ((x / 2) % p)
  {
    var q, r := x / 2 / p, (x / 2) % p;
    assert x / 2 == q * p + r;
    assert x == q * (2 * p) + (x % 2 + 2 * r);
    DivModUnique(x, 2 * p, q, x % 2 + 2 * r);
  }

  /** Masking the low bits takes the remainder. */
  lemma {:induction false} MaskIsMod(x: nat, bits: nat)
    ensures BitAnd(x, Pow2(bits) - 1) == x % Pow2(bits)
  {
    if bits != 0 {
      var p := Pow2(bits - 1);
      assert (2 * p - 1) / 2 == p - 1 && (2 * p - 1) % 2 == 1;
      MaskIsMod(x / 2, bits - 1);
      HalfOfRemainder(x, p);
      if x == 0 {
        DivModUnique(0, Pow2(bits), 0, 0);
      }
    }
  }

  /** Or-ing into bits that are zero adds. */
  lemma {:induction false} OrIsSum(high: nat, low: nat, bits: nat)
    requires low < Pow2(bits)
    ensures BitOr(high * Pow2(bits), low) == high * Pow2(bits) + low
  {
    if bits == 0 {
    } else {
      var p, x := Pow2(bits - 1), high * Pow2(bits - 1);
      assert high * Pow2(bits) == 2 * x;
      OrIsSum(high, low / 2, bits - 1);
    }
  }

  /** The shift and the mask are quotient and remainder. */
  lemma UnpackIsDivMod(dev: nat, bits: nat, width: nat)
    requires bits < width
    ensures Major(dev, bits) == dev / Pow2(bits)
    ensures Minor(dev, bits, width) == dev % Pow2(bits)
  {
    ShiftRightIsQuotient(dev, bits);
    Pow2Bound(bits, width);
    MaskIsMod(dev, bits);
  }

  lemma PackFits(major: nat, minor: nat, q: nat, p: nat)
    requires major < q && minor < p
    ensures major * p + minor < q * p
  {
    var d := q - major - 1;
    assert d * p >= 0;
    assert q * p == (d + major + 1) * p == d * p + major * p + p;
  }

  /** The shift and the or are a product and a sum, as long as nothing is shifted out. */
  lemma PackIsSum(major: nat, minor: nat, bits: nat, width: nat)
    requires bits < width && major < Pow2(width - bits) && minor < Pow2(bits)
    ensures MkDev(major, minor, bits, width) == major * Pow2(bits) + minor < Pow2(width)
  {
    var p := Pow2(bits);
    Pow2Splits(width - bits, bits);
    PackFits(major, minor, Pow2(width - bits), p);
    ShiftLeftIsProduct(major, bits, width);
    DivModUnique(major * p, Pow2(width), 0, major * p);
    OrIsSum(major, minor, bits);
  }

  /** Packing and unpacking gives both numbers back exactly when each fits into its bits. */
  lemma UnpackPacked(major: nat, minor: nat, bits: nat, width: nat)
    requires bits < width && minor < Pow2(width)
    ensures var dev := MkDev(major, minor, bits, width);
      Major(dev, bits) == major && Minor(dev, bits, width) == minor <==>
      major < Pow2(width - bits) && minor < Pow2(bits)
  {
    var dev, p := MkDev(major, minor, bits, width), Pow2(bits);
    UnpackIsDivMod(dev, bits, width);
    if major < Pow2(width - bits) && minor < p {
      PackIsSum(major, minor, bits, width);
      DivModUnique(dev, p, major, minor);
    }
    ShiftLeftIsProduct(major, bits, width);
    OrFits(ShiftLeft(major, bits, width), minor, width);
    Pow2Splits(width - bits, bits);
    QuotientFits(dev, Pow2(width - bits), p);
  }

  lemma QuotientFits(x: nat, q: nat, p: nat)
    requires 0 < p && x < q * p
    ensures x / p < q
  {
    var d := x / p - q;
    assert x == (x / p) * p + x % p;
    assert d >= 0 ==> (d + q) * p >= q * p by { assert (d + q) * p == d * p + q * p; assert d >= 0 ==> d * p >= 0; }
  }

  lemma {:induction false} OrFits(x: nat, y: nat, width: nat)
    requires x < Pow2(width) && y < Pow2(width)
    ensures BitOr(x, y) < Pow2(width)
  {
    if x != 0 && y != 0 {
      OrFits(x / 2, y / 2, width - 1);
    }
  }

  lemma QuotientAndRemainder(x: nat, q: nat, p: nat, d: nat, r: nat)
    requires 0 < p && x < q * p && d == x / p && r == x % p
    ensures d < q && r < p && x == d * p + r
  {
    QuotientFits(x, q, p);
  }

  /** Unpacking and packing gives the device number back. */
  lemma PackUnpacked(dev: nat, bits: nat, width: nat)
    requires bits < width && dev < Pow2(width)
    ensures Major(dev, bits) < Pow2(width - bits) && Minor(dev, bits, width) < Pow2(bits)
    ensures MkDev(Major(dev, bits), Minor(dev, bits, width), bits, width) == dev
  {
    var ma, mi := Major(dev, bits), Minor(dev, bits, width);
    UnpackIsDivMod(dev, bits, width);
    Pow2Splits(width - bits, bits);
    QuotientAndRemainder(dev, Pow2(width - bits), Pow2(bits), ma, mi);
    PackIsSum(ma, mi, bits, width);
  }

  lemma LexicographicSum(ma: nat, mi: nat, mb: nat, mj: nat, p: nat)
    requires mi < p && mj < p && ma < mb
    ensures ma * p + mi < mb * p + mj
  {
    PackFits(ma, mi, mb, p);
  }

  /** Device numbers are ordered by major number first, and by minor number within it. */
  lemma MkDevOrdered(ma: nat, mi: nat, mb: nat, mj: nat, bits: nat, width: nat)
    requires bits < width
    requires ma < Pow2(width - bits) && mb < Pow2(width - bits) && mi < Pow2(bits) && mj < Pow2(bits)
    ensures MkDev(ma, mi, bits, width) < MkDev(mb, mj, bits, width) <==> ma < mb || (ma == mb && mi < mj)
  {
    PackIsSum(ma, mi, bits, width);
    PackIsSum(mb, mj, bits, width);
    if ma < mb {
      LexicographicSum(ma, mi, mb, mj, Pow2(bits));
    } else if mb < ma {
      LexicographicSum(mb, mj, ma, mi, Pow2(bits));
    }
  }

  lemma KernelSizes()
    ensures Pow2(MINORBITS) == 1048576 && Pow2(DEV_BITS - MINORBITS) == 4096
  {
    assert Pow2(5) == 32;
    Pow2Splits(5, 5);
    assert Pow2(10) == 1024;
    Pow2Splits(10, 10);
    assert Pow2(2) == 4;
    Pow2Splits(10, 2);
  }

  /** With the kernel's constants both numbers come back exactly for the majors below 4096 and the minors
      below 1048576. */
  lemma KernelUnpackPacked(major: nat, minor: nat)
    requires minor < Pow2(DEV_BITS)
    ensures var dev := MkDev(major, minor, MINORBITS, DEV_BITS);
      Major(dev, MINORBITS) == major && Minor(dev, MINORBITS, DEV_BITS) == minor <==>
      major < 4096 && minor < 1048576
  {
    KernelSizes();
    UnpackPacked(major, minor, MINORBITS, DEV_BITS);
  }
}
