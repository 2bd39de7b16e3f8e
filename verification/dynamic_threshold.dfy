/**
 * The dynamic-threshold solver: how much of the shared buffer one priority
 * group may still claim when the pool runs the dynamic buffer-management
 * algorithm with factor alpha = 2^dynamic_th.
 */
module DynamicThreshold {
  import opened Wrappers
  import opened QosTypes
  import Asic

  function Pow2(n: nat): (r: nat)
    ensures r >= 1
  {
    if n == 0 then 1 else 2 * Pow2(n - 1)
  }

  /**
   * The growth rule of the dynamic threshold: a priority group that holds x
   * cells of a shared buffer of s cells may keep growing while
   * (s - x) * alpha >= x, with alpha = 2^dynamicTh (a fraction when
   * dynamicTh is negative).
   */
  predicate MayGrow(s: int, dynamicTh: int, x: int)
  {
    if dynamicTh >= 0 then (s - x) * Pow2(dynamicTh) >= x
    else s - x >= x * Pow2(-dynamicTh)
  }

  /**
   * The available shared buffer: the largest x the growth rule admits.
   * Only a dynamic pool is supported; any other mode is an assertion failure.
   */
  function AvailableSharedBuffer(sharedCells: int, poolMode: string, dynamicTh: int): (r: Result<int, Error>)
    ensures r.Failure? <==> poolMode != "dynamic"
    ensures r.Failure? ==> r.error == StaticPoolMode
    ensures r.Success? ==> MayGrow(sharedCells, dynamicTh, r.value)
    ensures r.Success? ==> !MayGrow(sharedCells, dynamicTh, r.value + 1)
  {
    if poolMode != "dynamic" then Failure(StaticPoolMode)
    else
      var x := if dynamicTh < 0 then sharedCells / (Pow2(-dynamicTh) + 1)
               else sharedCells * Pow2(dynamicTh) / (Pow2(dynamicTh) + 1);
      FloorBoundary(GrowthBound(sharedCells, dynamicTh), Pow2(Magnitude(dynamicTh)) + 1);
      MayGrowIff(sharedCells, dynamicTh, x);
      MayGrowIff(sharedCells, dynamicTh, x + 1);
      Success(x)
  }

  function Magnitude(dynamicTh: int): nat
  {
    if dynamicTh < 0 then -dynamicTh else dynamicTh
  }

  /** The numerator of the closed form: s * 2^a for a >= 0, s otherwise. */
  function GrowthBound(s: int, dynamicTh: int): int
  {
    if dynamicTh >= 0 then s * Pow2(dynamicTh) else s
  }

  /** The growth rule with x collected on one side. */
  lemma MayGrowIff(s: int, dynamicTh: int, x: int)
    ensures MayGrow(s, dynamicTh, x) <==> x * (Pow2(Magnitude(dynamicTh)) + 1) <= GrowthBound(s, dynamicTh)
  {
    var k := Pow2(Magnitude(dynamicTh));
    assert x * (k + 1) == x * k + x;
    if dynamicTh >= 0 {
      assert (s - x) * k == s * k - x * k;
    }
  }

  lemma FloorBoundary(n: int, d: int)
    requires d > 0
    ensures (n / d) * d <= n < (n / d + 1) * d
  {
    assert (n / d + 1) * d == (n / d) * d + d;
  }

  /** The rule is downward closed: a group allowed to grow at x is allowed at any y <= x. */
  lemma MayGrowDownward(s: int, dynamicTh: int, x: int, y: int)
    requires y <= x && MayGrow(s, dynamicTh, x)
    ensures MayGrow(s, dynamicTh, y)
  {
    MayGrowIff(s, dynamicTh, x);
    MayGrowIff(s, dynamicTh, y);
    Asic.MulMonotone(y, x, Pow2(Magnitude(dynamicTh)) + 1);
  }

  /** Of a non-negative shared buffer, the available part is never negative and never more than the whole; it is strictly less once the buffer is non-empty. */
  lemma AvailableWithinShared(s: int, dynamicTh: int)
    requires s >= 0
    ensures var r := AvailableSharedBuffer(s, "dynamic", dynamicTh).value; 0 <= r <= s && (s > 0 ==> r < s)
  {
    var r := AvailableSharedBuffer(s, "dynamic", dynamicTh).value;
    var k := Pow2(Magnitude(dynamicTh));
    MayGrowIff(s, dynamicTh, r);
    MayGrowIff(s, dynamicTh, r + 1);
    Asic.MulMonotone(1, k, s);
    Asic.MulMonotone(0, s, k);
    QuotientWithin(s, k, GrowthBound(s, dynamicTh), r);
  }

  lemma QuotientWithin(s: int, k: int, b: int, r: int)
    requires s >= 0 && k >= 1 && 0 <= b <= s * k
    requires r * (k + 1) <= b < (r + 1) * (k + 1)
    ensures 0 <= r <= s && (s > 0 ==> r < s)
  {
    assert s * (k + 1) == s * k + s;
    if r < 0 {
      Asic.MulMonotone(r + 1, 0, k + 1);
    }
    if r >= s && s > 0 {
      Asic.MulMonotone(s, r, k + 1);
    }
    if r > s {
      Asic.MulMonotone(1, r, k + 1);
    }
  }

  lemma Pow2Monotone(m: nat, n: nat)
    requires m <= n
    ensures Pow2(m) <= Pow2(n)
  {
    if m < n {
      Pow2Monotone(m, n - 1);
    }
  }

  /** A larger alpha never forbids growth the smaller one allowed, for x >= 0. */
  lemma MayGrowMonotoneInAlpha(s: int, t1: int, t2: int, x: int)
    requires t1 <= t2 && x >= 0 && MayGrow(s, t1, x)
    ensures MayGrow(s, t2, x)
  {
    if t1 >= 0 {
      Pow2Monotone(t1, t2);
      GrowsUnderLargerFactor(s - x, x, Pow2(t1), Pow2(t2));
    } else if t2 >= 0 {
      FractionToWhole(s, x, Pow2(-t1), Pow2(t2));
    } else {
      Pow2Monotone(-t2, -t1);
      SmallerFraction(s, x, Pow2(-t1), Pow2(-t2));
    }
  }

  lemma FractionToWhole(s: int, x: int, k1: nat, k2: nat)
    requires x >= 0 && k1 >= 1 && k2 >= 1 && s - x >= x * k1
    ensures (s - x) * k2 >= x
  {
    Asic.MulMonotone(1, k1, x);
    assert x * k1 == k1 * x;
    Asic.MulMonotone(1, k2, s - x);
    assert (s - x) * k2 == k2 * (s - x);
  }

  lemma SmallerFraction(s: int, x: int, k1: nat, k2: nat)
    requires x >= 0 && k2 <= k1 && s - x >= x * k1
    ensures s - x >= x * k2
  {
    Asic.MulMonotone(k2, k1, x);
    assert x * k1 == k1 * x && x * k2 == k2 * x;
  }

  lemma GrowsUnderLargerFactor(free: int, x: int, k1: nat, k2: nat)
    requires 1 <= k1 <= k2 && x >= 0 && free * k1 >= x
    ensures free * k2 >= x
  {
    if free < 0 {
      Asic.MulMonotone(free, 0, k1);
    } else {
      Asic.MulMonotone(k1, k2, free);
      assert free * k1 == k1 * free && free * k2 == k2 * free;
    }
  }

  /** On a non-negative shared buffer the available part grows with alpha. */
  lemma AvailableMonotoneInAlpha(s: int, t1: int, t2: int)
    requires s >= 0 && t1 <= t2
    ensures AvailableSharedBuffer(s, "dynamic", t1).value <= AvailableSharedBuffer(s, "dynamic", t2).value
  {
    var r1 := AvailableSharedBuffer(s, "dynamic", t1).value;
    var r2 := AvailableSharedBuffer(s, "dynamic", t2).value;
    AvailableWithinShared(s, t1);
    MayGrowMonotoneInAlpha(s, t1, t2, r1);
    if r1 > r2 {
      MayGrowDownward(s, t2, r1, r2 + 1);
    }
  }

  /** A larger shared buffer never leaves less available. */
  lemma AvailableMonotoneInShared(s1: int, s2: int, dynamicTh: int)
    requires s1 <= s2
    ensures AvailableSharedBuffer(s1, "dynamic", dynamicTh).value <= AvailableSharedBuffer(s2, "dynamic", dynamicTh).value
  {
    var r1 := AvailableSharedBuffer(s1, "dynamic", dynamicTh).value;
    var r2 := AvailableSharedBuffer(s2, "dynamic", dynamicTh).value;
    MayGrowIff(s1, dynamicTh, r1);
    MayGrowIff(s2, dynamicTh, r1);
    if dynamicTh >= 0 {
      Asic.MulMonotone(s1, s2, Pow2(dynamicTh));
    }
    if r1 > r2 {
      MayGrowDownward(s2, dynamicTh, r1, r2 + 1);
    }
  }

  /** dynamic_th = -3 (register value 4, alpha = 1/8) on 100000 cells leaves 11111 available. */
  lemma AlphaOneEighthExample()
    ensures AvailableSharedBuffer(100000, "dynamic", -3) == Success(11111)
  {
    assert Pow2(3) == 8;
  }
}
