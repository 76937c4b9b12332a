/** Unsigned machine arithmetic of the fast path: 64-bit wrap-around, bitwise AND,
    and why masking with N-1 is a modulo when N is a power of two. */
module Bits {

  // Number of values of a 64-bit size_t.
  const SIZE_MOD: int := 0x1_0000_0000_0000_0000
  // Number of values of a uint32_t.
  const U32_MOD: int := 0x1_0000_0000

  /** Bitwise AND of two naturals, bit by bit. */
  function BitAnd(x: nat, y: nat): nat
    decreases x
  {
    if x == 0 then 0 else 2 * BitAnd(x / 2, y / 2) + (if x % 2 == 1 && y % 2 == 1 then 1 else 0)
  }

  ghost predicate IsPow2(n: nat)
  {
    n == 1 || (n > 1 && n % 2 == 0 && IsPow2(n / 2))
  }

  /** The expression `x & (n - 1)` evaluated on a size_t holding x modulo 2^64. */
  function Mask(x: int, n: nat): nat
    requires n >= 1
  {
    BitAnd(x % SIZE_MOD, n - 1)
  }

  lemma {:induction false} BitAndZero(x: nat)
    ensures BitAnd(x, 0) == 0
  {
    if x > 0 {
      BitAndZero(x / 2);
    }
  }

  /** The static_assert of the ring accepts exactly the powers of two. */
  lemma {:induction false} Pow2Test(n: nat)
    requires n >= 1
    ensures BitAnd(n, n - 1) == 0 <==> IsPow2(n)
  {
    if n == 1 {
      BitAndZero(0);
    } else if n % 2 == 0 {
      Pow2Test(n / 2);
      assert (n - 1) / 2 == n / 2 - 1;
    } else {
      assert (n - 1) / 2 == n / 2;
      BitAndSelf(n / 2);
    }
  }

  lemma {:induction false} BitAndSelf(x: nat)
    ensures BitAnd(x, x) == x
  {
    if x > 0 {
      BitAndSelf(x / 2);
    }
  }

  /** Remainder on the integers, never negative. */
  function Mod(x: int, n: nat): (r: nat)
    requires n >= 1
    ensures r < n
  {
    x % n
  }

  lemma MulAtLeast(k: int, n: int)
    requires k >= 1 && n >= 1
    ensures k * n >= n
  {
    assert (k - 1) * n >= 0;
  }

  lemma QuotientUnique(n: int, q: int, r: int, q': int, r': int)
    requires n >= 1 && 0 <= r < n && 0 <= r' < n && q * n + r == q' * n + r'
    ensures q == q' && r == r'
  {
    if q > q' {
      assert q * n == (q - q') * n + q' * n;
      MulAtLeast(q - q', n);
    } else if q < q' {
      assert q' * n == (q' - q) * n + q * n;
      MulAtLeast(q' - q, n);
    }
  }

  /** A number and its residue differ by a multiple of n. */
  lemma ModQuotient(x: int, n: nat) returns (q: int)
    requires n >= 1
    ensures x == q * n + Mod(x, n)
  {
    q := x / n;
  }

  /** The residue is the only r in [0, n) that differs from x by a multiple of n. */
  lemma ModUnique(x: int, n: nat, q: int, r: int)
    requires 0 <= r < n && x == q * n + r
    ensures Mod(x, n) == r
  {
    hide Mod;
    var q' := ModQuotient(x, n);
    QuotientUnique(n, q, r, q', Mod(x, n));
  }

  lemma ModSmall(x: int, n: nat)
    requires 0 <= x < n
    ensures Mod(x, n) == x
  {
    hide Mod;
    ModUnique(x, n, 0, x);
  }

  /** Whole periods do not matter. */
  lemma ModPeriod(x: int, k: int, n: nat)
    requires n >= 1
    ensures Mod(x + k * n, n) == Mod(x, n)
  {
    hide Mod;
    var q := ModQuotient(x, n);
    assert (q + k) * n == q * n + k * n;
    ModUnique(x + k * n, n, q + k, Mod(x, n));
  }

  lemma ModAdd(a: int, i: int, n: nat)
    requires n >= 1
    ensures Mod(Mod(a, n) + i, n) == Mod(a + i, n)
  {
    hide Mod;
    var q := ModQuotient(a, n);
    ModPeriod(Mod(a, n) + i, q, n);
  }

  /** Adding less than one period moves a residue on, with at most one wrap. */
  lemma ModStep(a: int, d: nat, n: nat)
    requires d < n
    ensures Mod(a + d, n) == if Mod(a, n) + d < n then Mod(a, n) + d else Mod(a, n) + d - n
  {
    hide Mod;
    ModAdd(a, d, n);
    var r := Mod(a, n) + d;
    if r < n {
      ModSmall(r, n);
    } else {
      ModUnique(r, n, 1, r - n);
    }
  }

  // Two counters at most n - 1 apart, seen through their residues.

  lemma ModDiff(a: int, b: int, n: nat)
    requires n >= 1 && 0 <= a - b < n
    ensures Mod(Mod(a, n) - Mod(b, n), n) == a - b
  {
    hide Mod;
    ModStep(b, a - b, n);
    assert b + (a - b) == a;
    if Mod(a, n) == Mod(b, n) + (a - b) {
      ModSmall(a - b, n);
    } else {
      ModUnique(Mod(a, n) - Mod(b, n), n, -1, a - b);
    }
  }

  lemma ModInjective(a: int, b: int, n: nat)
    requires n >= 1 && 0 <= a - b < n
    ensures Mod(a, n) == Mod(b, n) <==> a == b
  {
    hide Mod;
    ModDiff(a, b, n);
    if Mod(a, n) == Mod(b, n) {
      ModSmall(0, n);
    }
  }

  // ---------------------------------------------------------------- masking

  lemma {:induction false} BitAndIsMod(x: nat, n: nat)
    requires IsPow2(n)
    ensures BitAnd(x, n - 1) == Mod(x, n)
    decreases x
  {
    hide Mod;
    if n == 1 {
      BitAndZero(x);
      ModUnique(x, 1, x, 0);
    } else if x == 0 {
      ModSmall(0, n);
    } else {
      BitAndIsMod(x / 2, n / 2);
      BitAndStep(x, n / 2);
      HalfMod(x, n / 2);
    }
  }

  lemma BitAndStep(x: nat, h: nat)
    requires x > 0 && h >= 1
    ensures BitAnd(x, 2 * h - 1) == 2 * BitAnd(x / 2, h - 1) + x % 2
  {
    assert (2 * h - 1) / 2 == h - 1 && (2 * h - 1) % 2 == 1;
  }

  lemma HalfMod(x: nat, h: nat)
    requires h >= 1
    ensures Mod(x, 2 * h) == 2 * Mod(x / 2, h) + x % 2
  {
    hide Mod;
    var q := ModQuotient(x / 2, h);
    assert x == 2 * (x / 2) + x % 2;
    assert q * (2 * h) == 2 * (q * h);
    ModUnique(x, 2 * h, q, 2 * Mod(x / 2, h) + x % 2);
  }

  /** A larger power of two is a multiple of a smaller one. */
  lemma {:induction false} Pow2Multiple(n: nat, m: nat) returns (k: nat)
    requires IsPow2(n) && IsPow2(m) && n <= m
    ensures m == k * n
    decreases m
  {
    if n == 1 {
      k := m;
    } else {
      k := Pow2Multiple(n / 2, m / 2);
      assert m == 2 * (m / 2) && n == 2 * (n / 2);
      assert k * (2 * (n / 2)) == 2 * (k * (n / 2));
    }
  }

  lemma {:induction false} Pow2Product(n: nat, m: nat)
    requires IsPow2(n) && IsPow2(m)
    ensures IsPow2(n * m)
    decreases m
  {
    if m > 1 {
      Pow2Product(n, m / 2);
      assert m == 2 * (m / 2);
      assert n * (2 * (m / 2)) == 2 * (n * (m / 2));
      assert (2 * (n * (m / 2))) / 2 == n * (m / 2);
    }
  }

  lemma SizeModIsPow2()
    ensures IsPow2(SIZE_MOD) && IsPow2(0x1_0000)
  {
    assert IsPow2(256) by { assert IsPow2(16); }
    Pow2Product(256, 256);
    Pow2Product(0x1_0000, 0x1_0000);
    Pow2Product(0x1_0000_0000, 0x1_0000_0000);
  }

  /** Masking a wrapped 64-bit value gives the mathematical value modulo n, also when the
      value is a difference that went below zero. */
  lemma MaskIsMod(x: int, n: nat)
    requires IsPow2(n) && n <= SIZE_MOD
    ensures Mask(x, n) == Mod(x, n)
  {
    hide Mod, IsPow2;
    SizeModIsPow2();
    BitAndIsMod(x % SIZE_MOD, n);
    var k := Pow2Multiple(n, SIZE_MOD);
    var q := x / SIZE_MOD;
    assert x == q * SIZE_MOD + x % SIZE_MOD;
    assert q * (k * n) == (q * k) * n;
    ModPeriod(x % SIZE_MOD, q * k, n);
  }
}
