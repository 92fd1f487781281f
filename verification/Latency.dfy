/**
 The latency histogram (include/lob/latency.h): 65 counters indexed by the bit
 width of a sample stand in for the sample list.  The recorder carries the list
 as ghost state, and every query is compared with the exact order statistics.
 */
module Latency {
  import opened Types
  import opened Bits

  const BUCKETS := 65
  const NANOS := 1_000_000_000
  // Clock rates are below 2^34 ticks a second.
  const MAX_RATE := 0x4_0000_0000

  // Number of significant bits: std::bit_width.
  function Width(x: nat): nat {
    if x == 0 then 0 else 1 + Width(x / 2)
  }

  function BucketLo(b: nat): nat {
    if b == 0 then 0 else Pow2(b - 1)
  }

  // The last bucket is closed by UINT64_MAX because 1 << 64 is not a u64.
  function BucketHi(b: nat): nat {
    if b == 0 then 0 else if b == BUCKETS - 1 then UINT64_MAX else Pow2(b) - 1
  }

  lemma {:induction false} WidthBounds(x: nat)
    requires x > 0
    ensures Width(x) > 0 && Pow2(Width(x) - 1) <= x < Pow2(Width(x))
  {
    if x >= 2 {
      WidthBounds(x / 2);
      assert Width(x) == 1 + Width(x / 2);
    }
  }

  lemma {:induction false} WidthMonotone(x: nat, y: nat)
    requires x <= y
    ensures Width(x) <= Width(y)
  {
    if x > 0 {
      WidthMonotone(x / 2, y / 2);
    }
  }

  lemma {:induction false} Pow2Monotone(i: nat, j: nat)
    requires i <= j
    ensures Pow2(i) <= Pow2(j)
    decreases j
  {
    if i < j {
      Pow2Monotone(i, j - 1);
    }
  }

  // Bucket b holds exactly the samples of width b, the topmost one included.
  lemma BucketIsWidth(x: U64, b: nat)
    requires b < BUCKETS
    ensures Width(x) == b <==> BucketLo(b) <= x <= BucketHi(b)
    ensures Width(x) < BUCKETS
  {
    Pow2Of64();
    if x > 0 {
      WidthBounds(x);
      var w := Width(x);
      if w > 64 {
        Pow2Monotone(64, w - 1);
      }
      if w < b {
        Pow2Monotone(w, b - 1);
      } else if b < w {
        Pow2Monotone(b, w - 1);
      }
    }
  }

  lemma BucketsFitU64(b: nat)
    requires b < BUCKETS
    ensures 0 <= BucketLo(b) <= BucketHi(b) <= UINT64_MAX
  {
    Pow2Of64();
    if 0 < b < 64 {
      Pow2Monotone(b, 63);
      assert Pow2(64) == 2 * Pow2(63);
    }
  }

  // ---- Arithmetic ----

  lemma DivBounds(x: nat, n: nat)
    requires n > 0
    ensures n * (x / n) <= x < n * (x / n) + n
  {
  }

  // The quotient is the one number whose multiple is close enough below.
  lemma QuotientUnique(x: int, n: nat, q: int)
    requires n > 0 && n * q <= x < n * q + n
    ensures x / n == q
  {
    var d := x / n - q;
    assert n * d == n * (x / n) - n * q;
    MultipleSize(n, d);
    MultipleSize(n, -d);
    assert n * -d == -(n * d);
  }

  lemma MulMonotone(a: nat, b: nat, c: nat, d: nat)
    requires a <= b && c <= d
    ensures a * c <= b * d
  {
    assert a * c <= b * c <= b * d;
  }

  lemma DivMonotone(x: nat, y: nat, n: nat)
    requires n > 0 && x <= y
    ensures x / n <= y / n
  {
    var d := x / n - y / n;
    assert n * d == n * (x / n) - n * (y / n);
    MultipleSize(n, d);
  }

  // A product divided through in two parts, as both conversions below do it.
  lemma SplitDivision(x: nat, k: nat, n: nat)
    requires n > 0
    ensures (x / n) * k + (x % n) * k / n == x * k / n
  {
    var q, r := x / n, x % n;
    var t := r * k / n;
    DivBounds(r * k, n);
    assert x == n * q + r;
    assert x * k == n * (q * k) + r * k;
    assert n * (q * k + t) == n * (q * k) + n * t;
    QuotientUnique(x * k, n, q * k + t);
  }

  lemma ScaledBelow(x: nat, k: nat, n: nat)
    requires n > 0 && k <= n
    ensures x * k / n <= x
  {
    MulMonotone(x, x, k, n);
    DivBounds(x * k, n);
    var d := x * k / n - x;
    assert n * d == n * (x * k / n) - n * x;
    MultipleSize(n, d);
  }

  // Both parts of a split division are naturals, and the second product fits its bound.
  lemma SplitParts(x: nat, k: nat, n: nat, rMax: nat, kMax: nat)
    requires n > 0 && x % n <= rMax && k <= kMax
    ensures 0 <= (x / n) * k
    ensures 0 <= (x % n) * k <= rMax * kMax
    ensures 0 <= (x % n) * k / n
  {
    var q, r := x / n, x % n;
    MulMonotone(0, q, 0, k);
    MulMonotone(r, rMax, k, kMax);
    DivMonotone(0, r * k, n);
  }

  // Neither half of the conversion overflows when the result fits.
  lemma NanosFit(ticks: nat, tps: nat)
    requires 0 < tps <= MAX_RATE
    ensures 0 <= (ticks / tps) * NANOS <= ticks * NANOS / tps
    ensures 0 <= (ticks % tps) * NANOS <= UINT64_MAX
    ensures (ticks / tps) * NANOS + (ticks % tps) * NANOS / tps == ticks * NANOS / tps
  {
    SplitParts(ticks, NANOS, tps, MAX_RATE, NANOS);
    SplitDivision(ticks, NANOS, tps);
  }

  function TicksToNanos(ticks: U64, ticksPerSecond: U64): (ns: U64)
    requires 0 < ticksPerSecond <= MAX_RATE
    requires ticks * NANOS / ticksPerSecond <= UINT64_MAX
    ensures ns == ticks * NANOS / ticksPerSecond
  {
    NanosFit(ticks, ticksPerSecond);
    var whole: U64 := (ticks / ticksPerSecond) * NANOS;
    var scaled: U64 := (ticks % ticksPerSecond) * NANOS;
    whole + scaled / ticksPerSecond
  }

  lemma NanosMonotone(a: U64, b: U64, ticksPerSecond: U64)
    requires 0 < ticksPerSecond <= MAX_RATE
    requires b * NANOS / ticksPerSecond <= UINT64_MAX
    requires a <= b
    ensures a * NANOS / ticksPerSecond <= UINT64_MAX
    ensures TicksToNanos(a, ticksPerSecond) <= TicksToNanos(b, ticksPerSecond)
  {
    DivMonotone(a * NANOS, b * NANOS, ticksPerSecond);
  }

  // The smallest positive k with k * den >= n * num.
  function Rank(n: nat, num: nat, den: nat): nat
    requires den > 0
  {
    var rank := (n * num + den - 1) / den;
    if rank == 0 then 1 else rank
  }

  lemma RankIsCeiling(n: nat, num: nat, den: nat, k: nat)
    requires den > 0 && k > 0
    ensures Rank(n, num, den) <= k <==> n * num <= k * den
  {
    var c := (n * num + den - 1) / den;
    DivBounds(n * num + den - 1, den);
    var d := c - k;
    assert den * d == den * c - den * k;
    MultipleSize(den, d);
    MultipleSize(den, 1 - d);
    assert den * (1 - d) == den - den * d;
  }

  lemma RankInRange(n: nat, num: nat, den: nat)
    requires n > 0 && den > 0 && num <= den
    ensures 1 <= Rank(n, num, den) <= n
  {
    MulMonotone(n, n, num, den);
    RankIsCeiling(n, num, den, n);
  }

  // A larger fraction asks for no smaller a rank.
  lemma RankMonotone(n: nat, num: nat, den: nat, num': nat, den': nat)
    requires den > 0 && den' > 0
    requires num * den' <= num' * den
    ensures Rank(n, num, den) <= Rank(n, num', den')
  {
    var k := Rank(n, num', den');
    RankIsCeiling(n, num', den', k);
    assert (n * num) * den' <= (k * den) * den' by {
      assert (n * num) * den' == n * (num * den');
      assert (k * den) * den' == (k * den') * den;
      assert n * (num' * den) == (n * num') * den;
      MulMonotone(n, n, num * den', num' * den);
      MulMonotone(n * num', k * den', den, den);
    }
    CancelFactor(n * num, k * den, den');
    RankIsCeiling(n, num, den, k);
  }

  lemma CancelFactor(a: int, b: int, n: nat)
    requires n > 0 && a * n <= b * n
    ensures a <= b
  {
    MultipleSize(n, a - b);
    assert n * (a - b) == a * n - b * n;
  }

  // ---- What the samples say ----

  // Samples of width b, and of width below b.
  ghost function CountIn(s: seq<U64>, b: nat): nat {
    if s == [] then 0 else CountIn(s[..|s| - 1], b) + (if Width(s[|s| - 1]) == b then 1 else 0)
  }

  ghost function Cum(s: seq<U64>, b: nat): nat {
    if s == [] then 0 else Cum(s[..|s| - 1], b) + (if Width(s[|s| - 1]) < b then 1 else 0)
  }

  // Samples below x, and up to x.
  ghost function CountBelow(s: seq<U64>, x: int): nat {
    if s == [] then 0 else CountBelow(s[..|s| - 1], x) + (if s[|s| - 1] < x then 1 else 0)
  }

  ghost function CountUpTo(s: seq<U64>, x: int): nat {
    if s == [] then 0 else CountUpTo(s[..|s| - 1], x) + (if s[|s| - 1] <= x then 1 else 0)
  }

  // x is the rank-th smallest sample, counting from one.
  ghost predicate IsOrderStat(s: seq<U64>, rank: nat, x: U64) {
    x in s && CountBelow(s, x) < rank <= CountUpTo(s, x)
  }

  ghost function MinOf(s: seq<U64>): U64 {
    if s == [] then UINT64_MAX
    else var x, m := s[|s| - 1], MinOf(s[..|s| - 1]); if x < m then x else m
  }

  ghost function MaxOf(s: seq<U64>): U64 {
    if s == [] then 0
    else var x, m := s[|s| - 1], MaxOf(s[..|s| - 1]); if x > m then x else m
  }

  lemma {:induction false} ExtremesBound(s: seq<U64>, x: U64)
    requires x in s
    ensures MinOf(s) <= x <= MaxOf(s)
  {
    if x != s[|s| - 1] {
      ExtremesBound(s[..|s| - 1], x);
    }
  }

  lemma {:induction false} ExtremesAreSamples(s: seq<U64>)
    requires s != []
    ensures MinOf(s) in s && MaxOf(s) in s
  {
    if |s| > 1 {
      ExtremesAreSamples(s[..|s| - 1]);
    } else {
      assert s[..0] == [];
    }
  }

  lemma {:induction false} CumStep(s: seq<U64>, b: nat)
    ensures Cum(s, b + 1) == Cum(s, b) + CountIn(s, b)
  {
    if s != [] {
      CumStep(s[..|s| - 1], b);
    }
  }

  lemma {:induction false} CumMonotone(s: seq<U64>, b: nat, c: nat)
    requires b <= c
    ensures Cum(s, b) <= Cum(s, c)
  {
    if s != [] {
      CumMonotone(s[..|s| - 1], b, c);
    }
  }

  lemma {:induction false} CumEnds(s: seq<U64>)
    ensures Cum(s, 0) == 0 && Cum(s, BUCKETS) == |s|
  {
    if s != [] {
      CumEnds(s[..|s| - 1]);
      BucketIsWidth(s[|s| - 1], 0);
    }
  }

  // Samples of a smaller width are smaller; samples up to x are at most as wide.
  lemma {:induction false} CumBrackets(s: seq<U64>, x: U64)
    ensures Cum(s, Width(x)) <= CountBelow(s, x)
    ensures CountUpTo(s, x) <= Cum(s, Width(x) + 1)
  {
    if s != [] {
      var y := s[|s| - 1];
      CumBrackets(s[..|s| - 1], x);
      if x <= y {
        WidthMonotone(x, y);
      }
      if y <= x {
        WidthMonotone(y, x);
      }
    }
  }

  lemma {:induction false} BucketHasSample(s: seq<U64>, b: nat) returns (x: U64)
    requires CountIn(s, b) > 0
    ensures x in s && Width(x) == b
  {
    if Width(s[|s| - 1]) == b {
      x := s[|s| - 1];
    } else {
      x := BucketHasSample(s[..|s| - 1], b);
    }
  }

  // What one more sample changes.
  lemma Appended(s: seq<U64>, x: U64)
    ensures forall b :: CountIn(s + [x], b) == CountIn(s, b) + (if Width(x) == b then 1 else 0)
    ensures MinOf(s + [x]) == (if x < MinOf(s) then x else MinOf(s))
    ensures MaxOf(s + [x]) == (if x > MaxOf(s) then x else MaxOf(s))
  {
    assert (s + [x])[..|s + [x]| - 1] == s;
  }

  lemma {:induction false} CountsAppend(s: seq<U64>, t: seq<U64>, b: nat)
    ensures CountIn(s + t, b) == CountIn(s, b) + CountIn(t, b)
  {
    if t == [] {
      assert s + t == s;
    } else {
      CountsAppend(s, t[..|t| - 1], b);
      assert (s + t)[..|s + t| - 1] == s + t[..|t| - 1];
    }
  }

  lemma {:induction false} ExtremesAppend(s: seq<U64>, t: seq<U64>)
    ensures MinOf(s + t) == Min(MinOf(s), MinOf(t))
    ensures MaxOf(s + t) == Max(MaxOf(s), MaxOf(t))
  {
    if t == [] {
      assert s + t == s;
    } else {
      ExtremesAppend(s, t[..|t| - 1]);
      assert (s + t)[..|s + t| - 1] == s + t[..|t| - 1];
    }
  }

  lemma {:induction false} CountInAtMost(s: seq<U64>, b: nat)
    ensures CountIn(s, b) <= |s|
  {
    if s != [] {
      CountInAtMost(s[..|s| - 1], b);
    }
  }

  // ---- The reported percentile ----

  ghost predicate RankIn(s: seq<U64>, rank: nat, b: nat) {
    Cum(s, b) < rank <= Cum(s, b + 1)
  }

  lemma RankInUnique(s: seq<U64>, rank: nat, b: nat, c: nat)
    requires RankIn(s, rank, b) && RankIn(s, rank, c)
    ensures b == c
  {
    if b < c {
      CumMonotone(s, b + 1, c);
    } else if c < b {
      CumMonotone(s, c + 1, b);
    }
  }

  // The bucket of the rank-th smallest sample, searched for from bucket b down.
  ghost function BucketFrom(s: seq<U64>, rank: nat, b: nat): (r: nat)
    requires 1 <= rank <= Cum(s, b + 1)
    ensures r <= b && RankIn(s, rank, r)
  {
    if Cum(s, b) < rank then b else CumEnds(s); BucketFrom(s, rank, b - 1)
  }

  ghost function BucketOf(s: seq<U64>, rank: nat): (r: nat)
    requires 1 <= rank <= |s|
    ensures r < BUCKETS && RankIn(s, rank, r)
  {
    CumEnds(s);
    BucketFrom(s, rank, BUCKETS - 1)
  }

  // The interpolation stays inside the span, even if its second product wraps.
  lemma PortionFits(span: nat, k: nat, n: nat)
    requires k < n
    ensures 0 <= (span / n) * k <= span && 0 <= (span % n) * k
    ensures (span / n) * k + Wrap((span % n) * k) / n <= span * k / n <= span
    ensures 0 <= Wrap((span % n) * k) / n
  {
    hide Wrap;
    SplitParts(span, k, n, n, k);
    SplitDivision(span, k, n);
    ScaledBelow(span, k, n);
    WrapAtMost((span % n) * k);
    DivMonotone(Wrap((span % n) * k), (span % n) * k, n);
    DivMonotone(0, Wrap((span % n) * k), n);
  }

  // For bucket counts up to 2^32 nothing wraps and the result is exact.
  lemma PortionExact(span: nat, k: nat, n: nat)
    requires k < n <= TWO32
    ensures 0 <= (span % n) * k <= UINT64_MAX
    ensures (span / n) * k + Wrap((span % n) * k) / n == span * k / n
  {
    hide Wrap;
    SplitParts(span, k, n, TWO32 - 1, TWO32 - 1);
    SplitDivision(span, k, n);
    WrapFits((span % n) * k);
  }

  function Portion(span: U64, k: U64, n: U64): (v: U64)
    requires k < n
    ensures v <= span
  {
    hide Wrap;
    PortionFits(span, k, n);
    var whole: U64 := (span / n) * k;
    var scaled: U64 := Wrap((span % n) * k);
    whole + scaled / n
  }

  function Interpolate(b: nat, inRank: U64, bucketCount: U64): (v: U64)
    requires b < BUCKETS && inRank < bucketCount
    ensures BucketLo(b) <= v <= BucketHi(b)
  {
    BucketsFitU64(b);
    hide BucketLo, BucketHi, Pow2;
    var lo: U64 := BucketLo(b);
    var span: U64 := BucketHi(b) - lo;
    lo + Portion(span, inRank, bucketCount)
  }

  lemma PortionIs(span: U64, k: U64, n: U64)
    requires k < n <= TWO32
    ensures Portion(span, k, n) == span * k / n
  {
    hide Wrap;
    PortionExact(span, k, n);
  }

  // For bucket counts up to 2^32 the split product is the plain linear interpolation.
  lemma InterpolateExact(b: nat, inRank: U64, bucketCount: U64)
    requires b < BUCKETS && inRank < bucketCount <= TWO32
    ensures BucketLo(b) <= BucketHi(b)
    ensures Interpolate(b, inRank, bucketCount)
         == BucketLo(b) + (BucketHi(b) - BucketLo(b)) * inRank / bucketCount
  {
    hide BucketLo, BucketHi, Portion;
    BucketsFitU64(b);
    PortionIs(BucketHi(b) - BucketLo(b), inRank, bucketCount);
  }

  function Clamp(v: U64, lo: U64, hi: U64): U64 {
    var w := if v < lo then lo else v;
    if w > hi then hi else w
  }

  ghost function ValueIn(s: seq<U64>, rank: nat, b: nat): U64
    requires |s| <= UINT64_MAX && b < BUCKETS && RankIn(s, rank, b)
  {
    CumStep(s, b);
    CountInAtMost(s, b);
    Clamp(Interpolate(b, rank - Cum(s, b) - 1, CountIn(s, b)), MinOf(s), MaxOf(s))
  }

  ghost function PercentileAt(s: seq<U64>, rank: nat): U64
    requires 1 <= rank <= |s| <= UINT64_MAX
  {
    ValueIn(s, rank, BucketOf(s, rank))
  }

  // The rank as 64-bit arithmetic computes it.
  function WrappedRank(n: nat, num: nat, den: nat): nat
    requires den > 0
  {
    var rank := Wrap(n * num + den - 1) / den;
    if rank == 0 then 1 else rank
  }

  lemma WrappedRankInRange(n: nat, num: nat, den: nat)
    requires n > 0 && den > 0 && num <= den
    ensures 1 <= WrappedRank(n, num, den) <= n
  {
    hide Wrap;
    RankInRange(n, num, den);
    WrapAtMost(n * num + den - 1);
    DivMonotone(Wrap(n * num + den - 1), n * num + den - 1, den);
  }

  lemma WrappedRankExact(n: nat, num: nat, den: nat)
    requires den > 0 && n * num + den - 1 <= UINT64_MAX
    ensures WrappedRank(n, num, den) == Rank(n, num, den)
  {
    hide Wrap;
    WrapFits(n * num + den - 1);
  }

  ghost function Percentile(s: seq<U64>, num: nat, den: nat): U64
    requires den > 0 && num <= den && |s| <= UINT64_MAX
  {
    if s == [] then 0
    else if num == den then MaxOf(s)
    else WrappedRankInRange(|s|, num, den); PercentileAt(s, WrappedRank(|s|, num, den))
  }

  // Clamping to the observed extremes never leaves the bucket.
  lemma ValueInBounds(s: seq<U64>, rank: nat, b: nat)
    requires |s| <= UINT64_MAX && b < BUCKETS && RankIn(s, rank, b)
    ensures Width(ValueIn(s, rank, b)) == b
    ensures MinOf(s) <= ValueIn(s, rank, b) <= MaxOf(s)
  {
    CumStep(s, b);
    CountInAtMost(s, b);
    var y := BucketHasSample(s, b);
    ExtremesBound(s, y);
    BucketIsWidth(y, b);
    BucketIsWidth(ValueIn(s, rank, b), b);
  }

  // The reported percentile shares its bucket with the exact order statistic.
  lemma PercentileNearOrderStat(s: seq<U64>, rank: nat, x: U64)
    requires 1 <= rank <= |s| <= UINT64_MAX
    requires IsOrderStat(s, rank, x)
    ensures Width(PercentileAt(s, rank)) == Width(x)
    ensures MinOf(s) <= PercentileAt(s, rank) <= MaxOf(s)
  {
    ValueInBounds(s, rank, BucketOf(s, rank));
    CumBrackets(s, x);
    RankInUnique(s, rank, Width(x), BucketOf(s, rank));
  }

  // Values of one width differ by less than a factor of two.
  lemma SameWidthWithinTwo(x: U64, y: U64)
    requires Width(x) == Width(y)
    ensures x == 0 <==> y == 0
    ensures x > 0 ==> x < 2 * y && y < 2 * x
  {
    if x > 0 && y > 0 {
      WidthBounds(x);
      WidthBounds(y);
    }
  }

  // There is an order statistic of every rank, and only one.
  lemma {:induction false} OrderStatFrom(s: seq<U64>, rank: nat, x: nat) returns (y: U64)
    requires 1 <= rank <= CountUpTo(s, x)
    ensures IsOrderStat(s, rank, y)
  {
    CountSplits(s, x);
    if CountBelow(s, x) < rank {
      CountGapIsSample(s, x);
      y := x;
    } else {
      if x == 0 {
        NoneBelowZero(s);
        assert false;
      }
      CountSplits(s, x - 1);
      BelowIsUpTo(s, x);
      y := OrderStatFrom(s, rank, x - 1);
    }
  }

  lemma {:induction false} CountSplits(s: seq<U64>, x: int)
    ensures CountBelow(s, x) <= CountUpTo(s, x) <= |s|
  {
    if s != [] {
      CountSplits(s[..|s| - 1], x);
    }
  }

  lemma {:induction false} NoneBelowZero(s: seq<U64>)
    ensures CountBelow(s, 0) == 0
  {
    if s != [] {
      NoneBelowZero(s[..|s| - 1]);
    }
  }

  lemma {:induction false} BelowIsUpTo(s: seq<U64>, x: int)
    ensures CountBelow(s, x) == CountUpTo(s, x - 1)
  {
    if s != [] {
      BelowIsUpTo(s[..|s| - 1], x);
    }
  }

  lemma {:induction false} CountGapIsSample(s: seq<U64>, x: int)
    requires CountBelow(s, x) < CountUpTo(s, x)
    ensures x in s
  {
    if s[|s| - 1] != x {
      CountGapIsSample(s[..|s| - 1], x);
    }
  }

  lemma {:induction false} AllUpToMax(s: seq<U64>)
    ensures CountUpTo(s, UINT64_MAX) == |s|
  {
    if s != [] {
      AllUpToMax(s[..|s| - 1]);
    }
  }

  lemma {:induction false} CountsMonotone(s: seq<U64>, x: int, y: int)
    requires x < y
    ensures CountUpTo(s, x) <= CountBelow(s, y)
  {
    if s != [] {
      CountsMonotone(s[..|s| - 1], x, y);
    }
  }

  lemma OrderStatUnique(s: seq<U64>, rank: nat, x: U64, y: U64)
    requires IsOrderStat(s, rank, x) && IsOrderStat(s, rank, y)
    ensures x == y
  {
    if x < y {
      CountsMonotone(s, x, y);
    } else if y < x {
      CountsMonotone(s, y, x);
    }
  }

  /** The histogram against the list: every percentile query answers within a factor of two
      of the unique exact ceil-rank order statistic, and inside the observed range. */
  lemma PercentileAccuracy(s: seq<U64>, num: nat, den: nat) returns (x: U64)
    requires 0 < |s| && num < den && |s| * num + den - 1 <= UINT64_MAX && |s| <= UINT64_MAX
    ensures IsOrderStat(s, Rank(|s|, num, den), x)
    ensures forall y: U64 :: IsOrderStat(s, Rank(|s|, num, den), y) ==> y == x
    ensures var p := Percentile(s, num, den);
            Width(p) == Width(x) && (x == 0 <==> p == 0) && (x > 0 ==> p < 2 * x && x < 2 * p)
    ensures MinOf(s) <= Percentile(s, num, den) <= MaxOf(s)
  {
    var rank := Rank(|s|, num, den);
    RankInRange(|s|, num, den);
    WrappedRankExact(|s|, num, den);
    AllUpToMax(s);
    x := OrderStatFrom(s, rank, UINT64_MAX);
    forall y: U64 | IsOrderStat(s, rank, y)
      ensures y == x
    {
      OrderStatUnique(s, rank, x, y);
    }
    PercentileNearOrderStat(s, rank, x);
    SameWidthWithinTwo(x, PercentileAt(s, rank));
  }

  /** The reported percentile exactly: with k the ceil-rank and x the order statistic of that
      rank, the k - j th of the n samples as wide as x, where j are narrower, is taken to lie
      evenly spaced in x's bucket, and brought into the observed range. */
  lemma PercentileIs(s: seq<U64>, num: nat, den: nat, x: U64)
    requires 0 < |s| < TWO32 && num < den && |s| * num + den - 1 <= UINT64_MAX
    requires IsOrderStat(s, Rank(|s|, num, den), x)
    ensures var k, w := Rank(|s|, num, den), Width(x);
            && w < BUCKETS && Cum(s, w) < k <= Cum(s, w) + CountIn(s, w)
            && BucketLo(w) <= BucketHi(w)
            && var even := BucketLo(w) + (BucketHi(w) - BucketLo(w)) * (k - 1 - Cum(s, w)) / CountIn(s, w);
               Percentile(s, num, den) ==
                 if even < MinOf(s) then MinOf(s) else if even > MaxOf(s) then MaxOf(s) else even
  {
    hide Rank, WrappedRank, Interpolate, BucketLo, BucketHi, BucketOf, CountIn, Cum, Width, MinOf, MaxOf;
    var k, w := Rank(|s|, num, den), Width(x);
    RankInRange(|s|, num, den);
    WrappedRankExact(|s|, num, den);
    BucketIsWidth(x, 0);
    CumBrackets(s, x);
    CumStep(s, w);
    CountInAtMost(s, w);
    RankInUnique(s, k, w, BucketOf(s, k));
    InterpolateExact(w, k - 1 - Cum(s, w), CountIn(s, w));
    ExtremesAreSamples(s);
    ExtremesBound(s, MinOf(s));
  }

  // No samples report 0, and the whole of them their largest.
  lemma PercentileEnds(s: seq<U64>, num: nat, den: nat)
    requires den > 0 && num <= den && |s| <= UINT64_MAX
    ensures s == [] ==> Percentile(s, num, den) == 0
    ensures s != [] && num == den ==>
      Percentile(s, num, den) in s && forall x :: x in s ==> x <= Percentile(s, num, den)
  {
    hide MinOf, MaxOf, PercentileAt, WrappedRank;
    if s != [] {
      ExtremesAreSamples(s);
      forall x | x in s
        ensures x <= MaxOf(s)
      {
        ExtremesBound(s, x);
      }
    }
  }

  lemma SpansOrdered(b: nat, c: nat)
    requires b < c < BUCKETS
    ensures BucketHi(b) < BucketLo(c)
  {
    if b > 0 {
      Pow2Monotone(b, c - 1);
    }
  }

  lemma InterpolateMonotone(b: nat, i: U64, j: U64, n: U64)
    requires b < BUCKETS && i <= j < n <= TWO32
    ensures Interpolate(b, i, n) <= Interpolate(b, j, n)
  {
    hide Interpolate, BucketLo, BucketHi;
    InterpolateExact(b, i, n);
    InterpolateExact(b, j, n);
    var span := BucketHi(b) - BucketLo(b);
    MulMonotone(span, span, i, j);
    DivMonotone(span * i, span * j, n);
  }

  lemma PercentileAtMonotone(s: seq<U64>, k: nat, m: nat)
    requires 1 <= k <= m <= |s| < TWO32
    ensures PercentileAt(s, k) <= PercentileAt(s, m)
  {
    hide Interpolate, BucketLo, BucketHi, BucketOf, CountIn, Cum, MinOf, MaxOf;
    var b, c := BucketOf(s, k), BucketOf(s, m);
    CumStep(s, b);
    CountInAtMost(s, b);
    CumStep(s, c);
    CountInAtMost(s, c);
    if c < b {
      CumMonotone(s, c + 1, b);
    } else if b < c {
      SpansOrdered(b, c);
    } else {
      InterpolateMonotone(b, k - Cum(s, b) - 1, m - Cum(s, b) - 1, CountIn(s, b));
    }
  }

  /** Percentiles are ordered as their fractions are, up to the maximum itself. */
  lemma PercentileMonotone(s: seq<U64>, num: nat, den: nat, num': nat, den': nat)
    requires |s| < TWO32 && den > 0 && den' > 0 && num <= den && num' <= den'
    requires |s| * num + den - 1 <= UINT64_MAX && |s| * num' + den' - 1 <= UINT64_MAX
    requires num * den' <= num' * den
    ensures Percentile(s, num, den) <= Percentile(s, num', den')
  {
    hide Rank, WrappedRank, PercentileAt, MinOf, MaxOf;
    if s != [] {
      RankInRange(|s|, num, den);
      WrappedRankExact(|s|, num, den);
      if num == den {
        if num' != den' {
          MulMonotone(num' + 1, den', den, den);
        }
      } else if num' == den' {
        PercentileInRange(s, num, den);
      } else {
        RankInRange(|s|, num', den');
        WrappedRankExact(|s|, num', den');
        RankMonotone(|s|, num, den, num', den');
        PercentileAtMonotone(s, Rank(|s|, num, den), Rank(|s|, num', den'));
      }
    }
  }

  // No percentile leaves the observed range, whatever wraps.
  lemma PercentileInRange(s: seq<U64>, num: nat, den: nat)
    requires |s| <= UINT64_MAX && den > 0 && num <= den && s != []
    ensures MinOf(s) <= Percentile(s, num, den) <= MaxOf(s)
  {
    hide WrappedRank, MinOf, MaxOf, BucketOf, ValueIn;
    if num == den {
      ExtremesAreSamples(s);
      ExtremesBound(s, MaxOf(s));
    } else {
      var rank := WrappedRank(|s|, num, den);
      WrappedRankInRange(|s|, num, den);
      ValueInBounds(s, rank, BucketOf(s, rank));
    }
  }

  datatype Summary = Summary(count: U64, min: U64, max: U64, p50: U64, p90: U64, p99: U64, p999: U64) {
    predicate Ordered() {
      min <= p50 <= p90 <= p99 <= p999 <= max
    }

    function ToNanos(ticksPerSecond: U64): (r: Summary)
      requires 0 < ticksPerSecond <= MAX_RATE
      requires Ordered() && max * NANOS / ticksPerSecond <= UINT64_MAX
      ensures r.Ordered() && r.count == count
    {
      NanosMonotone(p999, max, ticksPerSecond);
      NanosMonotone(p99, p999, ticksPerSecond);
      NanosMonotone(p90, p99, ticksPerSecond);
      NanosMonotone(p50, p90, ticksPerSecond);
      NanosMonotone(min, p50, ticksPerSecond);
      Summary(count,
              TicksToNanos(min, ticksPerSecond), TicksToNanos(max, ticksPerSecond),
              TicksToNanos(p50, ticksPerSecond), TicksToNanos(p90, ticksPerSecond),
              TicksToNanos(p99, ticksPerSecond), TicksToNanos(p999, ticksPerSecond))
    }
  }

  // Every field is converted, each by the exact floor.
  lemma NanosFields(s: Summary, ticksPerSecond: U64)
    requires 0 < ticksPerSecond <= MAX_RATE
    requires s.Ordered() && s.max * NANOS / ticksPerSecond <= UINT64_MAX
    ensures var r := s.ToNanos(ticksPerSecond);
            && r.count == s.count
            && r.min == s.min * NANOS / ticksPerSecond && r.max == s.max * NANOS / ticksPerSecond
            && r.p50 == s.p50 * NANOS / ticksPerSecond && r.p90 == s.p90 * NANOS / ticksPerSecond
            && r.p99 == s.p99 * NANOS / ticksPerSecond && r.p999 == s.p999 * NANOS / ticksPerSecond
  {
    hide TicksToNanos;
    NanosMonotone(s.p999, s.max, ticksPerSecond);
    NanosMonotone(s.p99, s.p999, ticksPerSecond);
    NanosMonotone(s.p90, s.p99, ticksPerSecond);
    NanosMonotone(s.p50, s.p90, ticksPerSecond);
    NanosMonotone(s.min, s.p50, ticksPerSecond);
  }

  class LatencyRecorder {
    const counts: array<U64>
    var count: U64
    var min: U64
    var max: U64
    // Everything recorded since the last reset.
    ghost var samples: seq<U64>

    ghost predicate Valid()
      reads this, counts
    {
      && counts.Length == BUCKETS
      && count == |samples|
      && min == MinOf(samples)
      && max == MaxOf(samples)
      && (forall b :: 0 <= b < BUCKETS ==> counts[b] == CountIn(samples, b))
    }

    constructor ()
      ensures Valid() && fresh(counts)
      ensures samples == []
    {
      counts := new U64[BUCKETS](i => 0);
      count, min, max := 0, UINT64_MAX, 0;
      samples := [];
    }

    method Record(ticks: U64)
      requires Valid()
      requires count < UINT64_MAX
      modifies this, counts
      ensures Valid()
      ensures samples == old(samples) + [ticks]
    {
      hide Width, CountIn, MinOf, MaxOf;
      BucketIsWidth(ticks, 0);
      Appended(samples, ticks);
      var b := Width(ticks);
      CountInAtMost(samples, b);
      counts[b] := counts[b] + 1;
      count := count + 1;
      min := if ticks < min then ticks else min;
      max := if ticks > max then ticks else max;
      samples := samples + [ticks];
    }

    method MinTicks() returns (r: U64)
      requires Valid()
      ensures samples == [] ==> r == 0
      ensures samples != [] ==> r in samples && forall x :: x in samples ==> r <= x
    {
      r := if count == 0 then 0 else min;
      if samples != [] {
        ExtremesAreSamples(samples);
        forall x | x in samples
          ensures r <= x
        {
          ExtremesBound(samples, x);
        }
      }
    }

    method MaxTicks() returns (r: U64)
      requires Valid()
      ensures samples == [] ==> r == 0
      ensures samples != [] ==> r in samples && forall x :: x in samples ==> x <= r
    {
      r := max;
      if samples != [] {
        ExtremesAreSamples(samples);
        forall x | x in samples
          ensures x <= r
        {
          ExtremesBound(samples, x);
        }
      }
    }

    // The scan finds its bucket before the table ends, so the fallback is dead.
    method PercentileTicks(num: U64, den: U64) returns (r: U64)
      requires Valid()
      requires den > 0 && num <= den
      ensures r == Percentile(samples, num, den)
      ensures samples != [] ==> MinOf(samples) <= r <= MaxOf(samples)
    {
      hide Cum, CountIn, BucketOf, Interpolate, MinOf, MaxOf, Wrap;
      if count == 0 {
        return 0;
      }
      PercentileInRange(samples, num, den);
      if num == den {
        return max;
      }
      var rank: U64 := Wrap(count * num + den - 1) / den;
      rank := if rank == 0 then 1 else rank;
      WrappedRankInRange(|samples|, num, den);
      CumEnds(samples);
      var cum: U64 := 0;
      var b := 0;
      while b < BUCKETS
        invariant 0 <= b <= BUCKETS
        invariant cum == Cum(samples, b) < rank
      {
        CumStep(samples, b);
        CumMonotone(samples, b + 1, BUCKETS);
        if cum + counts[b] >= rank {
          RankInUnique(samples, rank, b, BucketOf(samples, rank));
          CountInAtMost(samples, b);
          var v := Interpolate(b, rank - cum - 1, counts[b]);
          return Clamp(v, min, max);
        }
        cum := cum + counts[b];
        b := b + 1;
      }
      assert false;
    }

    method Summarize() returns (r: Summary)
      requires Valid()
      ensures count < TWO32 ==> r.Ordered()
      ensures r.count == |samples|
      ensures r.p50 == Percentile(samples, 50, 100) && r.p90 == Percentile(samples, 90, 100)
      ensures r.p99 == Percentile(samples, 99, 100) && r.p999 == Percentile(samples, 999, 1000)
      ensures r.min == if samples == [] then 0 else MinOf(samples)
      ensures r.max == MaxOf(samples)
    {
      var lo := MinTicks();
      var hi := MaxTicks();
      var p50 := PercentileTicks(50, 100);
      var p90 := PercentileTicks(90, 100);
      var p99 := PercentileTicks(99, 100);
      var p999 := PercentileTicks(999, 1000);
      if count < TWO32 {
        PercentileMonotone(samples, 50, 100, 90, 100);
        PercentileMonotone(samples, 90, 100, 99, 100);
        PercentileMonotone(samples, 99, 100, 999, 1000);
      }
      if samples != [] {
        ExtremesAreSamples(samples);
        ExtremesBound(samples, lo);
        ExtremesBound(samples, hi);
      }
      r := Summary(count, lo, hi, p50, p90, p99, p999);
    }

    // Also right when a recorder is merged into itself.
    method Merge(other: LatencyRecorder)
      requires Valid() && other.Valid()
      requires other != this ==> other.counts != counts
      requires count + other.count <= UINT64_MAX
      modifies this, counts
      ensures Valid()
      ensures samples == old(samples) + old(other.samples)
    {
      ghost var s, t := samples, other.samples;
      var b := 0;
      while b < BUCKETS
        modifies counts
        invariant 0 <= b <= BUCKETS
        invariant forall i :: 0 <= i < b ==> counts[i] == CountIn(s + t, i)
        invariant forall i :: b <= i < BUCKETS ==> counts[i] == CountIn(s, i) && other.counts[i] == CountIn(t, i)
      {
        CountsAppend(s, t, b);
        CountInAtMost(s + t, b);
        counts[b] := counts[b] + other.counts[b];
        b := b + 1;
      }
      count := count + other.count;
      min := if other.min < min then other.min else min;
      max := if other.max > max then other.max else max;
      samples := s + t;
      ExtremesAppend(s, t);
    }

    method Reset()
      requires Valid()
      modifies this, counts
      ensures Valid()
      ensures samples == []
    {
      var b := 0;
      while b < BUCKETS
        invariant 0 <= b <= BUCKETS
        invariant forall i :: 0 <= i < b ==> counts[i] == 0
      {
        counts[b] := 0;
        b := b + 1;
      }
      count, min, max := 0, UINT64_MAX, 0;
      samples := [];
    }
  }
}
