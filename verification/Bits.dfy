/**
 Powers of two, masks and remainders.
 */
module Bits {
  import opened Types

  function Pow2(k: nat): (p: nat)
    ensures p >= 1
  {
    if k == 0 then 1 else 2 * Pow2(k - 1)
  }

  lemma MultipleSize(cap: nat, q: int)
    ensures q <= 0 ==> cap * q <= 0
    ensures q >= 1 ==> cap * q >= cap
  {
  }

  function BitAnd(a: nat, b: nat): nat {
    if a == 0 || b == 0 then 0 else 2 * BitAnd(a / 2, b / 2) + (a % 2) * (b % 2)
  }

  lemma MaskStep(x: nat, p: nat)
    requires p > 0
    ensures BitAnd(x, 2 * p - 1) == 2 * BitAnd(x / 2, p - 1) + x % 2
    ensures BitAnd(x, 0) == 0
  {
    assert (2 * p - 1) / 2 == p - 1 && (2 * p - 1) % 2 == 1;
  }

  // Masking with a power of two less one is the remainder.
  lemma {:induction false} MaskIsMod(x: nat, k: nat)
    ensures BitAnd(x, Pow2(k) - 1) == x % Pow2(k)
    decreases k
  {
    hide BitAnd;
    if k == 0 {
      MaskStep(x, 1);
    } else {
      var p := Pow2(k - 1);
      MaskStep(x, p);
      MaskIsMod(x / 2, k - 1);
      ModDouble(x, p);
      assert Pow2(k) == 2 * p;
    }
  }

  lemma ModDouble(x: nat, p: nat)
    requires p > 0
    ensures x % (2 * p) == 2 * ((x / 2) % p) + x % 2
  {
    var q, r := (x / 2) / p, (x / 2) % p;
    assert x / 2 == p * q + r;
    assert x == (2 * p) * q + (2 * r + x % 2);
    DivUnique(x, 2 * p, q, 2 * r + x % 2);
  }

  lemma DivUnique(x: int, n: nat, q: int, r: nat)
    requires n > 0 && x == n * q + r && r < n
    ensures x % n == r
  {
    var d := x / n - q;
    assert n * d == r - x % n;
    MultipleSize(n, d);
    MultipleSize(n, -d);
  }

  lemma {:induction false} Pow2Splits(k: nat, m: nat)
    requires k <= m
    ensures Pow2(m) == Pow2(k) * Pow2(m - k)
    decreases m
  {
    if k < m {
      Pow2Splits(k, m - 1);
      assert 2 * (Pow2(k) * Pow2(m - 1 - k)) == Pow2(k) * (2 * Pow2(m - 1 - k));
    }
  }

  lemma Pow2Of64()
    ensures Pow2(64) == TWO64
  {
    assert Pow2(2) == 4;
    Pow2Splits(2, 4);
    Pow2Splits(4, 8);
    Pow2Splits(8, 16);
    Pow2Splits(16, 32);
    Pow2Splits(32, 64);
  }

  // Unsigned 64-bit arithmetic: 2^64 is taken off until the value fits.
  function Wrap(x: nat): U64 {
    if x < TWO64 then x else Wrap(x - TWO64)
  }

  lemma {:induction false} WrapIsMod(x: nat)
    ensures Wrap(x) == x % TWO64
  {
    if x >= TWO64 {
      WrapIsMod(x - TWO64);
    }
  }

  // Wrapping early or late comes to the same.
  lemma {:induction false} WrapDrop(x: nat, y: nat)
    ensures Wrap(Wrap(x) + y) == Wrap(x + y)
  {
    if x >= TWO64 {
      WrapDrop(x - TWO64, y);
    }
  }

  lemma WrapFits(x: U64)
    ensures Wrap(x) == x
  {
  }

  lemma {:induction false} WrapAtMost(x: nat)
    ensures Wrap(x) <= x
  {
    if x >= TWO64 {
      WrapAtMost(x - TWO64);
    }
  }
}
