/**
 Machine words: 64-bit wrap-around, powers of two, and the bit mask that the ring buffer uses
 in place of a remainder.
 */
module Words {

  const TWO_32: nat := 0x1_0000_0000
  const TWO_64: nat := 0x1_0000_0000_0000_0000

  type Word = x: nat | x < TWO_64

  /** `x + 1` on `size_t`. */
  function Inc(x: Word): Word {
    (x + 1) % TWO_64
  }

  /** `x - y` on `size_t`. */
  function Sub(x: Word, y: Word): Word {
    (x - y) % TWO_64
  }

  function Pow2(k: nat): (p: nat)
    ensures p > 0
  {
    if k == 0 then 1 else 2 * Pow2(k - 1)
  }

  /** Bitwise and of two naturals. */
  function BitAnd(a: nat, b: nat): (r: nat)
    ensures r <= b
  {
    if a == 0 || b == 0 then 0 else 2 * BitAnd(a / 2, b / 2) + (a % 2) * (b % 2)
  }

  /** The two `static_assert`s on a ring's capacity, which is a `size_t`. */
  predicate ValidCapacity(c: nat) {
    1 < c < TWO_64 && BitAnd(c, c - 1) == 0
  }

  lemma {:induction false} BitAndSelf(a: nat)
    ensures BitAnd(a, a) == a
  {
    if a > 0 {
      BitAndSelf(a / 2);
    }
  }

  lemma {:induction false} BitAndMask(a: nat, k: nat)
    ensures BitAnd(a, Pow2(k) - 1) == a % Pow2(k)
    decreases k
  {
    if k > 0 {
      BitAndMask(a / 2, k - 1);
      HalveModulo(a, Pow2(k - 1));
      BitAndHalves(a, Pow2(k - 1));
    }
  }

  lemma BitAndHalves(a: nat, m: nat)
    requires m > 0
    ensures BitAnd(a, 2 * m - 1) == 2 * BitAnd(a / 2, m - 1) + a % 2
  {
    assert (2 * m - 1) / 2 == m - 1 && (2 * m - 1) % 2 == 1;
  }

  lemma HalveModulo(a: nat, m: nat)
    requires m > 0
    ensures a % (2 * m) == 2 * ((a / 2) % m) + a % 2
  {
    var q, r := (a / 2) / m, (a / 2) % m;
    assert a / 2 == m * q + r;
    assert a == (2 * m) * q + (2 * r + a % 2) by {
      assert a == 2 * (a / 2) + a % 2;
      assert 2 * (m * q) == (2 * m) * q;
    }
    DivModUnique(a, 2 * m, q, 2 * r + a % 2);
  }

  lemma DivModUnique(a: int, m: nat, q: int, r: nat)
    requires m > 0 && a == m * q + r && r < m
    ensures a / m == q && a % m == r
  {
    var d := a / m - q;
    assert m * d == r - a % m by {
      assert m * d == m * (a / m) - m * q;
    }
    SmallMultipleIsZero(m, d);
  }

  lemma SmallMultipleIsZero(m: nat, d: int)
    requires -(m as int) < m * d < m
    ensures d == 0
  {
    assert d >= 1 ==> m * d >= m;
    assert d <= -1 ==> m * d <= -(m as int);
  }

  /** A capacity that passes the `static_assert`s is a power of two. */
  lemma {:induction false} CapacityIsPow2(c: nat) returns (k: nat)
    requires c > 1 && BitAnd(c, c - 1) == 0
    ensures k > 0 && c == Pow2(k)
  {
    if c == 2 {
      k := 1;
    } else {
      if c % 2 == 1 {
        BitAndSelf(c / 2);
        assert false;
      }
      assert (c - 1) / 2 == c / 2 - 1;
      k := CapacityIsPow2(c / 2);
      k := k + 1;
    }
  }

  lemma {:induction false} Pow2Add(a: nat, b: nat)
    ensures Pow2(a + b) == Pow2(a) * Pow2(b)
  {
    if a > 0 {
      Pow2Add(a - 1, b);
      DoubleFactor(Pow2(a - 1), Pow2(b));
    }
  }

  lemma DoubleFactor(x: int, y: int)
    ensures (2 * x) * y == 2 * (x * y)
  {
  }

  lemma {:induction false} Pow2Monotone(a: nat, b: nat)
    requires a <= b
    ensures Pow2(a) <= Pow2(b)
  {
    if a < b {
      Pow2Monotone(a, b - 1);
    }
  }

  lemma Pow2Words()
    ensures Pow2(32) == TWO_32 && Pow2(64) == TWO_64
  {
    assert Pow2(8) == 0x100;
    Pow2Add(8, 8);
    Pow2Add(16, 16);
    Pow2Add(32, 32);
  }

  /**
   Masking with `capacity - 1` picks the slot `a % capacity`, and keeps doing so after the
   64-bit counter has wrapped, because the capacity divides `2^64`.
   */
  lemma MaskPicksSlot(a: nat, c: nat)
    requires ValidCapacity(c)
    ensures BitAnd(a % TWO_64, c - 1) == a % c
  {
    var k := CapacityIsPow2(c);
    BitAndMask(a % TWO_64, k);
    Pow2Words();
    if k > 64 {
      Pow2Monotone(64, k);
      assert false;
    }
    Pow2Add(64 - k, k);
    ModModulo(a, c, Pow2(64 - k));
  }

  /** Reducing modulo a multiple of `m` first does not change the remainder modulo `m`. */
  lemma ModModulo(a: int, m: nat, f: nat)
    requires m > 0 && f > 0
    ensures f * m > 0 && (a % (f * m)) % m == a % m
  {
    assert f * m > 0;
    var n := f * m;
    var q, r := a / n, a % n;
    assert a == n * q + r;
    assert n * q == m * (f * q) by {
      assert n * q == (f * m) * q;
    }
    assert r == m * (r / m) + r % m;
    assert a == m * (f * q + r / m) + r % m by {
      assert m * (f * q + r / m) == m * (f * q) + m * (r / m);
    }
    DivModUnique(a, m, f * q + r / m, r % m);
  }

  /** Distinct unbounded positions less than a capacity apart use distinct slots. */
  lemma SlotsDistinct(i: nat, j: nat, c: nat)
    requires c > 0 && i < j < i + c
    ensures i % c != j % c
  {
    var d := j / c - i / c;
    assert j - i == c * d + (j % c - i % c) by {
      assert i == c * (i / c) + i % c && j == c * (j / c) + j % c;
      assert c * d == c * (j / c) - c * (i / c);
    }
    assert d >= 1 ==> c * d >= c;
    assert d <= 0 ==> c * d <= 0;
  }
}
