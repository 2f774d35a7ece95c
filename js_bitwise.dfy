/**
 * JavaScript's bitwise operators on integer numbers.
 *
 * `x & y`, `x | y` and `x >> n` convert their operands with ToInt32 (the
 * integer taken modulo 2^32, read as a signed 32-bit value), combine the 32
 * bits and read the result back as a signed 32-bit integer. Both simulation
 * engines use these operators to split addresses and instruction words, so
 * they are modelled exactly here, for every integer operand, on top of
 * bit-by-bit functions over natural numbers.
 */
module JsBitwise {

  const TwoTo31: int := 0x8000_0000
  const TwoTo32: int := 0x1_0000_0000

  function Pow2(n: nat): (p: nat)
    ensures p >= 1
  {
    if n == 0 then 1 else 2 * Pow2(n - 1)
  }

  /** Bitwise AND of two naturals, one bit at a time from the lowest. */
  function AndBits(x: nat, y: nat): (r: nat)
    ensures r <= x && r <= y
  {
    if x == 0 || y == 0 then 0
    else 2 * AndBits(x / 2, y / 2) + (if x % 2 == 1 && y % 2 == 1 then 1 else 0)
  }

  /** Bitwise OR of two naturals, one bit at a time from the lowest. */
  function OrBits(x: nat, y: nat): nat
    decreases x + y
  {
    if x == 0 then y
    else if y == 0 then x
    else 2 * OrBits(x / 2, y / 2) + (if x % 2 == 1 || y % 2 == 1 then 1 else 0)
  }

  /** ECMAScript ToInt32 on an integer: wrap modulo 2^32 into [-2^31, 2^31). */
  function ToInt32(x: int): (r: int)
    ensures -TwoTo31 <= r < TwoTo31
    ensures 0 <= x < TwoTo31 ==> r == x
  {
    var w := x % TwoTo32;
    if w < TwoTo31 then w else w - TwoTo32
  }

  /** JavaScript `x & y`. */
  function BitAnd(x: int, y: int): int
  {
    ToInt32(AndBits(x % TwoTo32, y % TwoTo32))
  }

  /** JavaScript `x | y`. */
  function BitOr(x: int, y: int): int
  {
    ToInt32(OrBits(x % TwoTo32, y % TwoTo32))
  }

  /** JavaScript `x >> n`: an arithmetic shift, i.e. floor division of the
      32-bit value by 2^(n mod 32); Dafny's `/` by a positive divisor floors. */
  function ShiftRight(x: int, n: nat): int
  {
    ToInt32(x) / Pow2(n % 32)
  }

  // ---------------------------------------------------------------------
  // Arithmetic helpers

  lemma MulStep(a: int, b: int, d: nat)
    requires a < b
    ensures a * d + d <= b * d
  {
    var c: nat := b - a - 1;
    assert b * d == (a + 1 + c) * d;
    assert (a + 1 + c) * d == a * d + d + c * d;
  }

  /** Quotient and remainder are determined by `x == q * d + r`, `0 <= r < d`. */
  lemma DivModUnique(x: int, d: int, q: int, r: int)
    requires d > 0 && 0 <= r < d && x == q * d + r
    ensures x / d == q && x % d == r
  {
    var q0, r0 := x / d, x % d;
    assert x == q0 * d + r0;
    if q0 > q {
      MulStep(q, q0, d);
      assert false;
    } else if q0 < q {
      MulStep(q0, q, d);
      assert false;
    }
  }

  lemma {:induction false} Pow2Add(a: nat, b: nat)
    ensures Pow2(a + b) == Pow2(a) * Pow2(b)
  {
    if a > 0 {
      Pow2Add(a - 1, b);
      assert Pow2(a + b) == 2 * Pow2(a - 1 + b);
    }
  }

  /** Splitting off the lowest bit commutes with reducing modulo 2^k. */
  lemma HalveMod(x: nat, k: nat)
    requires k >= 1
    ensures x % Pow2(k) == 2 * ((x / 2) % Pow2(k - 1)) + x % 2
  {
    var p := Pow2(k - 1);
    var q := (x / 2) / p;
    var r := (x / 2) % p;
    assert x / 2 == q * p + r;
    assert x == q * Pow2(k) + (2 * r + x % 2);
    DivModUnique(x, Pow2(k), q, 2 * r + x % 2);
  }

  /** Reducing modulo 2^32 first does not change the low k bits. */
  lemma ModOfWrapped(x: int, k: nat)
    requires k <= 32
    ensures (x % TwoTo32) % Pow2(k) == x % Pow2(k)
  {
    Pow2Add(32 - k, k);
    Pow2Values();
    ModOfMultiple(x, Pow2(32 - k), Pow2(k));
  }

  /** Reducing modulo m * p first does not change the remainder modulo p. */
  lemma ModOfMultiple(x: int, m: int, p: int)
    requires m > 0 && p > 0
    ensures (x % (m * p)) % p == x % p
  {
    var q, u := x / (m * p), x % (m * p);
    var a, b := u / p, u % p;
    DivModParts(x, m * p);
    DivModParts(u, p);
    MulAssoc(q, m, p);
    MulDistrib(q * m, a, p);
    DivModUnique(x, p, q * m + a, b);
  }

  lemma DivModParts(x: int, d: int)
    requires d > 0
    ensures x == (x / d) * d + x % d && 0 <= x % d < d
  {
  }

  lemma MulDistrib(a: int, b: int, c: int)
    ensures (a + b) * c == a * c + b * c
  {
  }

  lemma MulTwice(a: int, p: int)
    ensures a * (2 * p) == 2 * (a * p)
  {
  }

  lemma MulAssoc(a: int, b: int, c: int)
    ensures (a * b) * c == a * (b * c)
  {
  }

  /** The powers of two the engines' masks and shifts use. */
  lemma Pow2Values()
    ensures Pow2(2) == 4 && Pow2(3) == 8 && Pow2(4) == 16 && Pow2(12) == 0x1000
    ensures Pow2(31) == TwoTo31 && Pow2(32) == TwoTo32
  {
    assert Pow2(4) == 16;
    assert Pow2(8) == 256;
    assert Pow2(12) == 0x1000;
    assert Pow2(16) == 0x1_0000;
    assert Pow2(20) == 0x10_0000;
    assert Pow2(24) == 0x100_0000;
    assert Pow2(28) == 0x1000_0000;
  }

  // ---------------------------------------------------------------------
  // Bit-level facts

  /** Masking with 2^k - 1 keeps exactly the low k bits. */
  lemma {:induction false} AndLowMask(x: nat, k: nat)
    ensures AndBits(x, Pow2(k) - 1) == x % Pow2(k)
  {
    if k == 0 {
      assert Pow2(k) == 1;
      assert AndBits(x, 0) == 0;
    } else if x == 0 {
      assert AndBits(0, Pow2(k) - 1) == 0;
      DivModUnique(0, Pow2(k), 0, 0);
    } else {
      var p := Pow2(k - 1);
      var m := 2 * p - 1;
      assert Pow2(k) - 1 == m;
      assert m / 2 == p - 1 && m % 2 == 1 by {
        DivModUnique(m, 2, p - 1, 1);
      }
      assert AndBits(x, m) == 2 * AndBits(x / 2, p - 1) + x % 2;
      AndLowMask(x / 2, k - 1);
      HalveMod(x, k);
      assert AndBits(x, m) == x % Pow2(k);
    }
  }

  /** Masking h * 2^k + r (r below 2^k) with m * 2^k keeps the AND of h and m,
      shifted up by k. */
  lemma {:induction false} AndShiftedMask(h: nat, r: nat, m: nat, k: nat)
    requires r < Pow2(k)
    ensures AndBits(h * Pow2(k) + r, m * Pow2(k)) == AndBits(h, m) * Pow2(k)
  {
    var a := AndBits(h, m);
    if k == 0 {
      assert Pow2(0) == 1;
      assert h * Pow2(0) + r == h && m * Pow2(0) == m && a * Pow2(0) == a;
    } else {
      var p := Pow2(k - 1);
      assert Pow2(k) == 2 * p;
      var hp, mp := h * p, m * p;
      var x := h * Pow2(k) + r;
      assert h * Pow2(k) == 2 * hp by { MulTwice(h, p); }
      assert m * Pow2(k) == 2 * mp by { MulTwice(m, p); }
      assert a * Pow2(k) == 2 * (a * p) by { MulTwice(a, p); }
      assert x / 2 == hp + r / 2 by {
        DivModUnique(x, 2, hp + r / 2, r % 2);
      }
      assert AndBits(x, 2 * mp) == 2 * AndBits(x / 2, mp) by {
        AndEven(x, mp);
      }
      assert AndBits(hp + r / 2, mp) == a * p by {
        AndShiftedMask(h, r / 2, m, k - 1);
      }
    }
  }

  /** AND with an even mask: the lowest bit is 0, the rest is the halves' AND. */
  lemma AndEven(x: nat, h: nat)
    ensures AndBits(x, 2 * h) == 2 * AndBits(x / 2, h)
  {
    if x == 0 {
      assert AndBits(x / 2, h) == 0;
    } else if h == 0 {
      assert AndBits(x / 2, h) == 0;
    } else {
      assert (2 * h) / 2 == h && (2 * h) % 2 == 0;
      assert AndBits(x, 2 * h) == 2 * AndBits(x / 2, (2 * h) / 2);
    }
  }

  /** OR of a multiple of 2^k with a value below 2^k is their sum. */
  lemma {:induction false} OrDisjoint(h: nat, a: nat, k: nat)
    requires a < Pow2(k)
    ensures OrBits(h * Pow2(k), a) == h * Pow2(k) + a
  {
    if k > 0 && h > 0 && a > 0 {
      var p := Pow2(k - 1);
      assert (h * Pow2(k)) / 2 == h * p && (h * Pow2(k)) % 2 == 0;
      OrDisjoint(h, a / 2, k - 1);
    }
  }

  // ---------------------------------------------------------------------
  // The JavaScript operators on the values the engines use

  /** `x & (2^k - 1)` is x modulo 2^k, for every integer x. */
  lemma LowBits(x: int, k: nat)
    requires k <= 31
    ensures BitAnd(x, Pow2(k) - 1) == x % Pow2(k)
  {
    MaskFits(k);
    AndLowMask(x % TwoTo32, k);
    ModOfWrapped(x, k);
  }

  lemma MaskFits(k: nat)
    requires k <= 31
    ensures Pow2(k) <= TwoTo31 && (Pow2(k) - 1) % TwoTo32 == Pow2(k) - 1
  {
    var p, q := Pow2(k), Pow2(31 - k);
    assert p * q == TwoTo31 by {
      Pow2Add(k, 31 - k);
      Pow2Values();
    }
    assert p <= p * q by {
      MulStep(0, q, p);
      assert q * p == p * q;
    }
    DivModUnique(p - 1, TwoTo32, 0, p - 1);
  }

  /** `x >> n` on a non-negative 32-bit integer is division by 2^n. */
  lemma ShiftNonNegative(x: int, n: nat)
    requires 0 <= x < TwoTo31 && n < 32
    ensures ShiftRight(x, n) == x / Pow2(n)
  {
    assert n % 32 == n;
    assert ToInt32(x) == x;
  }

  /** `(x & 0xf000) >> 12` is bits 12 to 15 of x, for every integer x. */
  lemma HighNibble(x: int)
    ensures ShiftRight(BitAnd(x, 0xf000), 12) == (x / 0x1000) % 16
  {
    Pow2Values();
    var u := x % TwoTo32;
    var w, r := u / 0x1000, u % 0x1000;
    var v := w % 16;
    assert AndBits(u, 0xf000) == v * 0x1000 by {
      DivModParts(u, 0x1000);
      AndShiftedMask(w, r, 15, 12);
      AndLowMask(w, 4);
    }
    assert BitAnd(x, 0xf000) == v * 0x1000 by {
      DivModUnique(0xf000, TwoTo32, 0, 0xf000);
    }
    assert ShiftRight(v * 0x1000, 12) == v by {
      DivModUnique(v * 0x1000, 0x1000, v, 0);
    }
    var q := x / TwoTo32;
    assert x / 0x1000 == q * 0x10_0000 + w by {
      DivModParts(x, TwoTo32);
      DivModParts(u, 0x1000);
      DivModUnique(x, 0x1000, q * 0x10_0000 + w, r);
    }
    assert (q * 0x10_0000 + w) % 16 == v by {
      DivModParts(w, 16);
      DivModUnique(q * 0x10_0000 + w, 16, q * 0x1_0000 + w / 16, v);
    }
  }

  /** `(h << k) | a` with a below 2^k and a result below 2^31 is h * 2^k + a. */
  lemma OrInt(h: nat, a: nat, k: nat)
    requires a < Pow2(k) && h * Pow2(k) + a < TwoTo31
    ensures BitOr(h * Pow2(k), a) == h * Pow2(k) + a
  {
    var p := Pow2(k);
    var v := h * p;
    assert 0 <= v by {
      MulStep(-1, h, p);
    }
    assert v % TwoTo32 == v by {
      DivModUnique(v, TwoTo32, 0, v);
    }
    assert a % TwoTo32 == a by {
      DivModUnique(a, TwoTo32, 0, a);
    }
    assert OrBits(v, a) == v + a by {
      OrDisjoint(h, a, k);
    }
    assert ToInt32(v + a) == v + a;
  }
}
