/** Arithmetic on `size_t` words: 64-bit unsigned integers that wrap around. */
module Words {
  /** The number of values of a 64-bit word. */
  const WORD_RANGE: nat := 0x1_0000_0000_0000_0000

  /** The largest `size_t`. */
  const MAX_SIZE_T: nat := WORD_RANGE - 1

  function Pow2(n: nat): (r: nat)
    ensures r >= 1
  {
    if n == 0 then 1 else 2 * Pow2(n - 1)
  }

  lemma Pow2Double(b: nat)
    ensures Pow2(b + 1) == 2 * Pow2(b)
  {
  }

  /** A block of one, or two halves. */
  lemma Pow2Half(n: nat)
    ensures if n == 0 then Pow2(n) == 1 else Pow2(n) == 2 * Pow2(n - 1)
  {
  }

  /** Unsigned addition, wrapping past 2^64. */
  function Add64(a: nat, b: nat): (r: nat)
    requires a < WORD_RANGE && b < WORD_RANGE
    ensures r < WORD_RANGE
  {
    if a + b < WORD_RANGE then a + b else a + b - WORD_RANGE
  }

  /** Unsigned subtraction, wrapping below zero. */
  function Sub64(a: nat, b: nat): (r: nat)
    requires a < WORD_RANGE && b < WORD_RANGE
    ensures r < WORD_RANGE
  {
    if b <= a then a - b else a - b + WORD_RANGE
  }

  /** `x << k` on 64 bits. */
  function Shl64(x: nat, k: nat): (r: nat)
    ensures r < WORD_RANGE
  {
    (x * Pow2(k)) % WORD_RANGE
  }

  /** `(x >> 63) & 1`. */
  function TopBit(x: nat): (r: nat) {
    (x / Pow2(63)) % 2
  }

  /** Bit `b` of `x`. */
  function Bit(x: nat, b: nat): (r: nat) {
    (x / Pow2(b)) % 2
  }

  /** Rounds up to a multiple of a power of two with `(x + (a - 1)) & ~(a - 1)`, wrapping. */
  function AlignUp(x: nat, a: nat): (r: nat)
    requires x < WORD_RANGE && 0 < a < WORD_RANGE
    ensures r % a == 0 && r < WORD_RANGE
  {
    var y := Add64(x, a - 1);
    ModLess(y, a);
    y - y % a
  }

  lemma ModLess(y: nat, a: nat)
    requires 0 < a
    ensures 0 <= y - y % a <= y
    ensures (y - y % a) % a == 0
  {
    DivMod(y, a);
    MultipleMod(y / a, a);
  }

  lemma DivMod(x: nat, d: nat)
    requires d > 0
    ensures x == (x / d) * d + x % d
    ensures 0 <= x % d < d
  {
  }

  lemma MultipleMod(q: nat, d: nat)
    requires d > 0
    ensures (q * d) % d == 0
  {
    DivModUnique(q * d, d, q, 0);
  }

  /** Quotient and remainder are the only pair that rebuilds the dividend. */
  lemma DivModUnique(x: nat, d: nat, q: nat, r: nat)
    requires d > 0 && x == q * d + r && r < d
    ensures x / d == q && x % d == r
  {
    DivMod(x, d);
    var q', r' := x / d, x % d;
    assert (q' - q) * d == r - r';
    if q' > q {
      MulAtLeast(q' - q, d);
    } else if q' < q {
      MulAtLeast(q - q', d);
    }
  }

  lemma MulAtLeast(k: nat, d: nat)
    requires k >= 1
    ensures k * d >= d
  {
  }

  lemma MulMono(a: nat, b: nat, d: nat)
    requires a <= b
    ensures a * d <= b * d
  {
  }

  lemma DoubledProduct(x: nat, y: nat)
    ensures 2 * (x * y) == (2 * x) * y
  {
  }

  lemma {:induction false} Pow2Add(a: nat, b: nat)
    ensures Pow2(a + b) == Pow2(a) * Pow2(b)
  {
    hide Pow2;
    Pow2Half(a);
    if a > 0 {
      Pow2Add(a - 1, b);
      Pow2Half(a + b);
      DoubledProduct(Pow2(a - 1), Pow2(b));
    }
  }

  lemma {:induction false} Pow2Mono(a: nat, b: nat)
    requires a <= b
    ensures Pow2(a) <= Pow2(b)
    decreases b - a
  {
    if a < b {
      Pow2Mono(a + 1, b);
    }
  }

  lemma Pow2Strict(a: nat, b: nat)
    requires a < b
    ensures 2 * Pow2(a) <= Pow2(b)
  {
    Pow2Mono(a + 1, b);
  }

  lemma Pow2Small()
    ensures Pow2(6) == 64 && Pow2(7) == 128 && Pow2(8) == 0x100
  {
    assert Pow2(4) == 16;
  }

  lemma Pow2Values()
    ensures Pow2(8) == 0x100 && Pow2(16) == 0x10000 && Pow2(32) == 0x1_0000_0000
    ensures Pow2(40) == 0x100_0000_0000 && Pow2(64) == WORD_RANGE
    ensures Pow2(7) == 128 && Pow2(23) == 0x80_0000 && Pow2(22) == 0x40_0000
  {
    hide Pow2;
    Pow2Small();
    Pow2Add(8, 8);
    Pow2Add(7, 16);
    Pow2Add(6, 16);
    Pow2Add(16, 16);
    Pow2Add(32, 8);
    Pow2Add(32, 32);
  }

  /** Shifting one more place is the same as shifting once more. */
  lemma ShlStep(x: nat, k: nat)
    ensures Shl64(Shl64(x, k), 1) == Shl64(x, k + 1)
  {
    var y := x * Pow2(k);
    DivMod(y, WORD_RANGE);
    var q, r := y / WORD_RANGE, y % WORD_RANGE;
    assert Pow2(1) == 2 * Pow2(0) == 2;
    assert x * Pow2(k + 1) == x * (2 * Pow2(k)) == 2 * y;
    DivMod(2 * r, WORD_RANGE);
    var q', r' := (2 * r) / WORD_RANGE, (2 * r) % WORD_RANGE;
    assert 2 * y == (2 * q + q') * WORD_RANGE + r';
    DivModUnique(2 * y, WORD_RANGE, 2 * q + q', r');
  }

  /** Which half of a block of 2p a number falls in is its bit of weight p. */
  lemma HalfBit(x: nat, p: nat, q: nat, r: nat)
    requires p > 0 && x == q * (2 * p) + r && r < 2 * p
    ensures (x / p) % 2 == if r < p then 0 else 1
  {
    assert q * (2 * p) == (2 * q) * p;
    if r < p {
      DivModUnique(x, p, 2 * q, r);
    } else {
      assert (2 * q + 1) * p == (2 * q) * p + p;
      DivModUnique(x, p, 2 * q + 1, r - p);
    }
  }

  lemma TopOfShifted(r: nat, p: nat, m: nat)
    requires p > 0 && m > 0 && r < 2 * p
    ensures ((r * m) / (p * m)) % 2 == if r < p then 0 else 1
  {
    if r < p {
      MulLess(r, p, m);
      DivModUnique(r * m, p * m, 0, r * m);
    } else {
      MulLess(r - p, p, m);
      assert (r - p) * m == r * m - p * m;
      DivModUnique(r * m, p * m, 1, (r - p) * m);
    }
  }

  /** Shifting left by `63 - b` puts bit `b` at the sign position. */
  lemma TopBitOfShift(x: nat, b: nat)
    requires b <= 63
    ensures TopBit(Shl64(x, 63 - b)) == Bit(x, b)
  {
    hide Pow2;
    var p, m := Pow2(b), Pow2(63 - b);
    assert p * m == Pow2(63) by { Pow2Add(b, 63 - b); }
    assert (2 * p) * m == WORD_RANGE by { Pow2Word(b); }
    DivMod(x, 2 * p);
    var q, r := x / (2 * p), x % (2 * p);
    ShiftedWord(x, q, r, p, m);
    TopOfShifted(r, p, m);
    HalfBit(x, p, q, r);
  }

  lemma Pow2Word(b: nat)
    requires b <= 63
    ensures (2 * Pow2(b)) * Pow2(63 - b) == WORD_RANGE
  {
    Pow2Add(b + 1, 63 - b);
    Pow2Values();
  }

  lemma MulLess(a: nat, b: nat, d: nat)
    requires a < b && d > 0
    ensures a * d < b * d
  {
  }

  lemma ShiftedWord(x: nat, q: nat, r: nat, p: nat, m: nat)
    requires p > 0 && m > 0 && (2 * p) * m == WORD_RANGE
    requires x == q * (2 * p) + r && r < 2 * p
    ensures (x * m) % WORD_RANGE == r * m
  {
    MulLess(r, 2 * p, m);
    assert x * m == (q * (2 * p)) * m + r * m == q * ((2 * p) * m) + r * m;
    DivModUnique(x * m, WORD_RANGE, q, r * m);
  }

  /** In an aligned block of 2^(n+1) words, bit `n` tells the upper half from the lower. */
  lemma BitSelectsHalf(x: nat, n: nat, q: nat)
    requires q * Pow2(n + 1) <= x < q * Pow2(n + 1) + Pow2(n + 1)
    ensures Bit(x, n) == if x < q * Pow2(n + 1) + Pow2(n) then 0 else 1
  {
    HalfBit(x, Pow2(n), q, x - q * Pow2(n + 1));
  }
}
