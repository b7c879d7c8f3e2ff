/**
 The generator's linear congruential random numbers. For every `k <= 32` the low `k` bits of the
 state run through all `2^k` values and repeat exactly every `2^k` steps.
 */
module Lcg {
  import opened Words

  const A: nat := 1664525
  const C: nat := 1013904223

  type State = x: nat | x < TWO_32

  /** `next_rand`, on wrapping 32-bit numbers. */
  function NextRand(x: State): State {
    (x * A + C) % TWO_32
  }

  function Rand(x: State, n: nat): State {
    if n == 0 then x else NextRand(Rand(x, n - 1))
  }

  /** `1 + A + A^2 + ... + A^(n-1)` */
  function Geometric(n: nat): nat {
    if n == 0 then 0 else A * Geometric(n - 1) + 1
  }

  /** `n` steps from `x` without any reduction. */
  function Unreduced(x: nat, n: nat): nat {
    x + Geometric(n) * Increment(x)
  }

  /** How far one unreduced step moves: always odd. */
  function Increment(x: nat): (d: nat)
    ensures d % 2 == 1
  {
    (A - 1) * x + C
  }

  // Arithmetic modulo m

  lemma AddMultiple(x: int, q: int, m: nat)
    requires m > 0
    ensures (x + m * q) % m == x % m
  {
    assert x + m * q == m * (x / m + q) + x % m;
    DivModUnique(x + m * q, m, x / m + q, x % m);
  }

  lemma AffineCongruent(x: nat, y: nat, m: nat)
    requires m > 0 && x % m == y % m
    ensures (x * A + C) % m == (y * A + C) % m
  {
    var q := x / m - y / m;
    assert x - y == m * q by {
      assert m * q == m * (x / m) - m * (y / m);
    }
    assert x * A + C == (y * A + C) + m * (q * A) by {
      assert (m * q) * A == m * (q * A);
    }
    AddMultiple(y * A + C, q * A, m);
  }

  lemma AddZeroIff(x: nat, y: nat, m: nat)
    requires m > 0
    ensures (x + y) % m == x % m <==> y % m == 0
  {
    if y % m == 0 {
      AddMultiple(x, y / m, m);
    }
    if (x + y) % m == x % m {
      var q := (x + y) / m - x / m;
      assert y == m * q by {
        assert m * q == m * ((x + y) / m) - m * (x / m);
      }
      AddMultiple(0, q, m);
    }
  }

  // Divisibility by powers of two

  predicate Divides2(k: nat, n: nat) {
    n % Pow2(k) == 0
  }

  lemma EvenFactor(k: nat, n: nat)
    requires k > 0 && Divides2(k, n)
    ensures n % 2 == 0
  {
    ModModulo(n, 2, Pow2(k - 1));
  }

  lemma DoubleDivides(k: nat, n: nat)
    requires k > 0
    ensures Divides2(k, 2 * n) <==> Divides2(k - 1, n)
  {
    HalveModulo(2 * n, Pow2(k - 1));
  }

  /** An odd factor makes no difference to divisibility by a power of two. */
  lemma {:induction false} OddFactor(k: nat, g: nat, w: nat)
    requires w % 2 == 1
    ensures Divides2(k, g * w) <==> Divides2(k, g)
  {
    if k > 0 {
      if g % 2 == 1 {
        OddTimesOdd(g, w);
        if Divides2(k, g * w) { EvenFactor(k, g * w); }
        if Divides2(k, g) { EvenFactor(k, g); }
      } else {
        var h := g / 2;
        OddFactor(k - 1, h, w);
        DoubleFactor(h, w);
        DoubleDivides(k, h * w);
        DoubleDivides(k, h);
      }
    }
  }

  lemma OddTimesOdd(g: nat, w: nat)
    requires g % 2 == 1 && w % 2 == 1
    ensures (g * w) % 2 == 1
  {
    var a, b := g / 2, w / 2;
    assert g * w == 2 * (2 * a * b + a + b) + 1 by {
      assert g == 2 * a + 1 && w == 2 * b + 1;
    }
  }

  // The geometric sum has the same powers of two as its length

  function Power(n: nat): nat {
    if n == 0 then 1 else A * Power(n - 1)
  }

  lemma {:induction false} PowerModFour(n: nat)
    ensures Power(n) % 4 == 1
  {
    if n > 0 {
      PowerModFour(n - 1);
      ModFourStep(A, Power(n - 1));
    }
  }

  lemma ModFourStep(a: nat, p: nat)
    requires a % 4 == 1 && p % 4 == 1
    ensures (a * p) % 4 == 1
  {
    var b, q := a / 4, p / 4;
    assert a * p == 4 * (b * p + q) + 1 by {
      assert a == 4 * b + 1 && p == 4 * q + 1;
      assert (4 * b + 1) * p == 4 * (b * p) + p;
    }
  }

  lemma {:induction false} GeometricAdd(m: nat, n: nat)
    ensures Geometric(m + n) == Geometric(m) * Power(n) + Geometric(n)
  {
    if n > 0 {
      GeometricAdd(m, n - 1);
      ScaleSum(A, Geometric(m), Power(n - 1), Geometric(n - 1));
    }
  }

  lemma ScaleSum(a: nat, g: nat, p: nat, r: nat)
    ensures a * (g * p + r) == g * (a * p) + a * r
  {
    assert a * (g * p + r) == a * (g * p) + a * r;
    assert a * (g * p) == (a * g) * p == g * (a * p);
  }

  lemma {:induction false} GeometricParity(n: nat)
    ensures Geometric(n) % 2 == n % 2
  {
    if n > 0 {
      GeometricParity(n - 1);
      OddScaleParity(A, Geometric(n - 1));
      NextParity(A * Geometric(n - 1), Geometric(n - 1), n);
    }
  }

  lemma OddScaleParity(a: nat, g: nat)
    requires a % 2 == 1
    ensures (a * g) % 2 == g % 2
  {
    var b := a / 2;
    assert a * g == 2 * (b * g) + g by {
      assert a == 2 * b + 1;
      assert (2 * b + 1) * g == 2 * (b * g) + g;
    }
    TwiceParity(b * g, g);
  }

  lemma TwiceParity(c: nat, g: nat)
    ensures (2 * c + g) % 2 == g % 2
  {
  }

  lemma NextParity(p: nat, g: nat, n: nat)
    requires n > 0 && p % 2 == g % 2 == (n - 1) % 2
    ensures (p + 1) % 2 == n % 2
  {
  }

  lemma GeometricDouble(m: nat) returns (w: nat)
    ensures w % 2 == 1 && Geometric(2 * m) == 2 * (Geometric(m) * w)
  {
    PowerModFour(m);
    w := (Power(m) + 1) / 2;
    assert Geometric(2 * m) == Geometric(m) * Power(m) + Geometric(m) by {
      GeometricAdd(m, m);
    }
    OnePlusIsTwiceOdd(Geometric(m), Power(m), w);
  }

  lemma OnePlusIsTwiceOdd(g: nat, p: nat, w: nat)
    requires p % 4 == 1 && w == (p + 1) / 2
    ensures w % 2 == 1 && g * p + g == 2 * (g * w)
  {
    assert p + 1 == 2 * w;
    assert g * p + g == g * (p + 1);
    assert g * (2 * w) == 2 * (g * w);
  }

  lemma {:induction false} GeometricDivides(k: nat, n: nat)
    ensures Divides2(k, Geometric(n)) <==> Divides2(k, n)
    decreases n
  {
    if k == 0 || n == 0 {
    } else if n % 2 == 1 {
      GeometricParity(n);
      if Divides2(k, n) { EvenFactor(k, n); }
      if Divides2(k, Geometric(n)) { EvenFactor(k, Geometric(n)); }
    } else {
      var m := n / 2;
      var w := GeometricDouble(m);
      DoubleDivides(k, m);
      DoubleDivides(k, Geometric(m) * w);
      OddFactor(k - 1, Geometric(m), w);
      GeometricDivides(k - 1, m);
    }
  }

  // The states

  lemma UnreducedStep(x: nat, n: nat)
    ensures Unreduced(x, n + 1) == Unreduced(x, n) * A + C
  {
    var g, d := Geometric(n), Increment(x);
    assert (A * g + 1) * d == (g * d) * A + d;
    assert d == A * x - x + C;
  }

  /** The low bits of the state are those of the unreduced sequence: the reductions never matter. */
  lemma {:induction false} LowBits(x: State, n: nat, k: nat)
    requires k <= 32
    ensures Rand(x, n) % Pow2(k) == Unreduced(x, n) % Pow2(k)
  {
    if n > 0 {
      LowBits(x, n - 1, k);
      UnreducedStep(x, n - 1);
      AffineCongruent(Rand(x, n - 1), Unreduced(x, n - 1), Pow2(k));
      Pow2Words();
      Pow2Add(32 - k, k);
      ModModulo(Rand(x, n - 1) * A + C, Pow2(k), Pow2(32 - k));
    }
  }

  /** From any state, `n` steps return to the same low `k` bits exactly when `2^k` divides `n`. */
  lemma ReturnsIff(x: State, n: nat, k: nat)
    requires k <= 32
    ensures Rand(x, n) % Pow2(k) == x % Pow2(k) <==> n % Pow2(k) == 0
  {
    LowBits(x, n, k);
    AddZeroIff(x, Geometric(n) * Increment(x), Pow2(k));
    OddFactor(k, Geometric(n), Increment(x));
    GeometricDivides(k, n);
  }

  lemma {:induction false} RandAdd(x: State, m: nat, n: nat)
    ensures Rand(x, m + n) == Rand(Rand(x, m), n)
  {
    if n > 0 {
      RandAdd(x, m, n - 1);
    }
  }

  /** Period exactly `2^k`: two moments agree in the low `k` bits iff their distance is a multiple. */
  lemma FullPeriod(x: State, i: nat, j: nat, k: nat)
    requires k <= 32 && i <= j
    ensures Rand(x, i) % Pow2(k) == Rand(x, j) % Pow2(k) <==> (j - i) % Pow2(k) == 0
  {
    RandAdd(x, i, j - i);
    ReturnsIff(Rand(x, i), j - i, k);
  }

  // Every value occurs

  /** The low bits at the first `n` moments. */
  ghost function Seen(x: State, n: nat, k: nat): set<nat> {
    if n == 0 then {} else Seen(x, n - 1, k) + {Rand(x, n - 1) % Pow2(k)}
  }

  lemma {:induction false} SeenIsVisited(x: State, n: nat, k: nat, r: nat)
    ensures r in Seen(x, n, k) ==> exists i :: 0 <= i < n && Rand(x, i) % Pow2(k) == r
  {
    if n == 0 {
      return;
    }
    if r == Rand(x, n - 1) % Pow2(k) {
      assert 0 <= n - 1 < n;
    } else {
      SeenIsVisited(x, n - 1, k, r);
    }
  }

  ghost function Below(n: nat): set<nat> {
    if n == 0 then {} else Below(n - 1) + {n - 1}
  }

  lemma {:induction false} BelowMembers(n: nat, i: nat)
    ensures i in Below(n) <==> i < n
  {
    if n > 0 {
      BelowMembers(n - 1, i);
    }
  }

  lemma {:induction false} BelowCount(n: nat)
    ensures |Below(n)| == n
  {
    if n > 0 {
      BelowCount(n - 1);
      BelowMembers(n - 1, n - 1);
    }
  }

  lemma SmallModulo(a: nat, m: nat)
    requires a < m
    ensures a % m == a
  {
  }

  lemma NextIsNew(x: State, n: nat, k: nat)
    requires k <= 32 && n < Pow2(k)
    ensures Rand(x, n) % Pow2(k) !in Seen(x, n, k)
  {
    hide Rand, Pow2, Seen;
    if Rand(x, n) % Pow2(k) in Seen(x, n, k) {
      SeenIsVisited(x, n, k, Rand(x, n) % Pow2(k));
      var i :| 0 <= i < n && Rand(x, i) % Pow2(k) == Rand(x, n) % Pow2(k);
      FullPeriod(x, i, n, k);
      SmallModulo(n - i, Pow2(k));
      assert false;
    }
  }

  lemma {:induction false} SeenCount(x: State, n: nat, k: nat)
    requires k <= 32 && n <= Pow2(k)
    ensures |Seen(x, n, k)| == n && Seen(x, n, k) <= Below(Pow2(k))
  {
    if n > 0 {
      SeenCount(x, n - 1, k);
      NextIsNew(x, n - 1, k);
      BelowMembers(Pow2(k), Rand(x, n - 1) % Pow2(k));
    }
  }

  lemma SubsetOfSameSize(a: set<nat>, b: set<nat>)
    requires a <= b && |a| == |b|
    ensures a == b
  {
    assert b == a + (b - a);
  }

  /** Every `k`-bit value turns up within the first `2^k` draws, from every seed. */
  lemma EveryValueOccurs(x: State, k: nat, r: nat)
    requires k <= 32 && r < Pow2(k)
    ensures exists i :: 0 <= i < Pow2(k) && Rand(x, i) % Pow2(k) == r
  {
    SeenCount(x, Pow2(k), k);
    BelowCount(Pow2(k));
    BelowMembers(Pow2(k), r);
    SubsetOfSameSize(Seen(x, Pow2(k), k), Below(Pow2(k)));
    SeenIsVisited(x, Pow2(k), k, r);
  }

  // How often a residue is small

  /** How many of the first `n` draws have low `k` bits below `bound`. */
  function CountBelow(x: State, n: nat, k: nat, bound: nat): nat {
    if n == 0 then 0
    else CountBelow(x, n - 1, k, bound) + if Rand(x, n - 1) % Pow2(k) < bound then 1 else 0
  }

  lemma {:induction false} CountIsSeen(x: State, n: nat, k: nat, bound: nat)
    requires k <= 32 && n <= Pow2(k)
    ensures CountBelow(x, n, k, bound) == |Seen(x, n, k) * Below(bound)|
  {
    if n > 0 {
      CountIsSeen(x, n - 1, k, bound);
      NextIsNew(x, n - 1, k);
      var r := Rand(x, n - 1) % Pow2(k);
      BelowMembers(bound, r);
      OneMoreSeen(Seen(x, n - 1, k), r, Below(bound));
    }
  }

  lemma OneMoreSeen(seen: set<nat>, r: nat, below: set<nat>)
    requires r !in seen
    ensures |(seen + {r}) * below| == |seen * below| + if r in below then 1 else 0
  {
    if r in below {
      assert (seen + {r}) * below == seen * below + {r};
    } else {
      assert (seen + {r}) * below == seen * below;
    }
  }

  lemma {:induction false} BelowBoth(m: nat, n: nat)
    ensures |Below(m) * Below(n)| == if m < n then m else n
  {
    var least := if m < n then m else n;
    forall i
      ensures i in Below(m) * Below(n) <==> i in Below(least)
    {
      if i >= 0 {
        BelowMembers(m, i);
        BelowMembers(n, i);
        BelowMembers(least, i);
      }
    }
    assert Below(m) * Below(n) == Below(least);
    BelowCount(least);
  }

  /** Among any `2^k` consecutive draws, exactly `bound` of the possible low parts are below `bound`, each once. */
  lemma EvenlySpread(x: State, k: nat, bound: nat)
    requires k <= 32
    ensures CountBelow(x, Pow2(k), k, bound) == if Pow2(k) < bound then Pow2(k) else bound
  {
    CountIsSeen(x, Pow2(k), k, bound);
    SeenCount(x, Pow2(k), k);
    BelowCount(Pow2(k));
    SubsetOfSameSize(Seen(x, Pow2(k), k), Below(Pow2(k)));
    BelowBoth(Pow2(k), bound);
  }

  // Seeds

  lemma MultipleIsZero(n: nat, m: nat)
    requires m > 0
    ensures (n * m) % m == 0
  {
    AddMultiple(0, n, m);
  }

  lemma ComesBack(x: State, n: nat)
    ensures Rand(x, n * TWO_32) == x
  {
    hide Rand;
    Pow2Words();
    MultipleIsZero(n, TWO_32);
    ReturnsIff(x, n * TWO_32, 32);
  }

  /** Different seeds never meet: the state after any number of draws tells the seed. */
  lemma DrawsTellSeeds(x: State, y: State, n: nat)
    requires Rand(x, n) == Rand(y, n)
    ensures x == y
  {
    hide Rand;
    var m := n * TWO_32;
    RandAdd(x, n, m - n);
    RandAdd(y, n, m - n);
    ComesBack(x, n);
    ComesBack(y, n);
  }

  /** The first draws from seed 1. */
  lemma FirstDraws()
    ensures Rand(1, 1) == 1_015_568_748 && Rand(1, 2) == 1_586_005_467 && Rand(1, 3) == 2_165_703_038
  {
    assert NextRand(1) == 1_015_568_748 && NextRand(1_015_568_748) == 1_586_005_467;
    assert NextRand(1_586_005_467) == 2_165_703_038;
    assert Rand(1, 0) == 1;
  }
}
