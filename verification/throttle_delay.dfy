/** The progressive delay of auth/throttle.go, in 64-bit arithmetic: durations are int64 nanoseconds, and the shift
    that doubles the base wraps around. */
module ThrottleDelay {
  import opened Words

  const SECOND := 1_000_000_000
  const DEFAULT_DELAY := SECOND
  const DEFAULT_DELAY_MAX := 30 * SECOND
  const MAX_SHIFT := 40

  /** Nanoseconds. */
  type Duration = Int64

  /** The ceiling in force. */
  function EffectiveCeiling(ceiling: Duration): Duration {
    if ceiling <= 0 then DEFAULT_DELAY_MAX else ceiling
  }

  /** auth/throttle.go, ProgressiveDelay. */
  function ProgressiveDelay(excess: int, base: Duration, ceiling: Duration): (d: Duration)
    ensures d > 0 <==> excess >= 1 && base > 0
    ensures 0 <= d <= EffectiveCeiling(ceiling)
    ensures ceiling > 0 ==> d <= ceiling && (excess >= 1 && base >= ceiling ==> d == ceiling)
    ensures ceiling <= 0 ==>
      d <= DEFAULT_DELAY_MAX && (excess >= 1 && base >= DEFAULT_DELAY_MAX ==> d == DEFAULT_DELAY_MAX)
  {
    var top := EffectiveCeiling(ceiling);
    if excess < 1 || base <= 0 then 0
    else if base >= top then top
    else if excess - 1 > MAX_SHIFT then top
    else
      var d := Wrap64(base * Pow2(excess - 1));
      if d <= 0 || d > top then top else d
  }

  /** What the comment promises: the base, doubled for each further attempt, never above the ceiling. */
  function Promised(excess: int, base: Duration, ceiling: Duration): int
    requires excess >= 1
  {
    if base * Pow2(excess - 1) <= EffectiveCeiling(ceiling) then base * Pow2(excess - 1) else EffectiveCeiling(ceiling)
  }

  /** Doubling shift times wraps around to a positive value below the ceiling. */
  predicate WrapsShort(base: Duration, ceiling: Duration, shift: nat) {
    base < EffectiveCeiling(ceiling) && shift <= MAX_SHIFT
    && TWO_63 <= base * Pow2(shift) && 0 < Wrap64(base * Pow2(shift)) < EffectiveCeiling(ceiling)
  }

  /** The shift is past the cut-off, yet the doubled base is still below the ceiling. */
  predicate CutShort(base: Duration, ceiling: Duration, shift: nat) {
    shift > MAX_SHIFT && base * Pow2(shift) < EffectiveCeiling(ceiling)
  }

  lemma PositiveProduct(a: int, b: int)
    requires a > 0 && b > 0
    ensures a * b >= a && a * b >= b
  {}

  /** The delay is the promised one exactly when the shift neither wraps to a short value nor is cut off early. */
  lemma ExactWhenNoWrap(excess: int, base: Duration, ceiling: Duration)
    requires excess >= 1 && base > 0
    ensures ProgressiveDelay(excess, base, ceiling) == Promised(excess, base, ceiling) <==>
      !WrapsShort(base, ceiling, excess - 1) && !CutShort(base, ceiling, excess - 1)
  {
    PositiveProduct(base, Pow2(excess - 1));
  }

  lemma ProductGrows(k: int, a: int, b: int)
    requires k > 0 && a <= b
    ensures k * a <= k * b
  {}

  /** A multiple of a divisor of 2^64 wraps around to a multiple of it. */
  lemma WrapKeepsMultiples(x: int, m: int)
    requires m > 0 && x % m == 0 && TWO_64 % m == 0
    ensures Wrap64(x) % m == 0
  {
    var q := (x - Wrap64(x)) / TWO_64;
    assert x - Wrap64(x) == q * TWO_64;
    var a, b := x / m, TWO_64 / m;
    assert x == a * m && TWO_64 == b * m;
    assert q * TWO_64 == (q * b) * m by { Assoc(q, b, m); }
    assert Wrap64(x) == (a - q * b) * m by { Distribute(a, q * b, m); }
    MultipleMod(a - q * b, m);
  }

  lemma Assoc(x: int, y: int, z: int)
    ensures x * (y * z) == (x * y) * z
  {}

  lemma Distribute(x: int, y: int, z: int)
    ensures (x - y) * z == x * z - y * z
  {}

  lemma MultipleMod(k: int, m: int)
    requires m > 0
    ensures (k * m) % m == 0
  {
    var r := (k * m) % m;
    var q := (k * m) / m;
    assert k * m == q * m + r;
    Distribute(k, q, m);
    if k - q >= 1 { PositiveProduct(k - q, m); } else if k - q <= -1 { PositiveProduct(q - k, m); Distribute(q, k, m); }
  }

  /** At the default base and ceiling the delay is the promised one for every excess: from the shift where the
      product leaves 64 bits it is a multiple of 2^43, so a positive wrapped value is far above the ceiling. */
  lemma DefaultIsExact(excess: int)
    requires excess >= 1
    ensures ProgressiveDelay(excess, DEFAULT_DELAY, DEFAULT_DELAY_MAX) ==
      Promised(excess, DEFAULT_DELAY, DEFAULT_DELAY_MAX)
  {
    var shift := excess - 1;
    var m := Pow2(43);
    assert m == 0x800_0000_0000 && Pow2(34) == 0x4_0000_0000 && Pow2(33) == 0x2_0000_0000 by { SmallPowers(); }
    if shift <= 33 {
      Pow2Grows(shift, 33);
    } else {
      Pow2Grows(34, shift);
      Pow2Adds(34, shift - 34);
      var rest := Pow2(shift - 34);
      assert DEFAULT_DELAY * Pow2(34) == 1953125 * m;
      Assoc(DEFAULT_DELAY, Pow2(34), rest);
      Assoc(rest, 1953125, m);
      assert DEFAULT_DELAY * Pow2(shift) == (rest * 1953125) * m;
      MultipleMod(rest * 1953125, m);
      MultipleMod(0x20_0000, m);
      WrapKeepsMultiples(DEFAULT_DELAY * Pow2(shift), m);
    }
    ExactWhenNoWrap(excess, DEFAULT_DELAY, DEFAULT_DELAY_MAX);
  }

  lemma SmallPowers()
    ensures Pow2(30) == 0x4000_0000 && Pow2(33) == 0x2_0000_0000
    ensures Pow2(34) == 0x4_0000_0000 && Pow2(43) == 0x800_0000_0000
  {
    Pow2Adds(10, 10);
    assert Pow2(10) == 1024;
    Pow2Adds(20, 10);
    Pow2Adds(30, 3);
    Pow2Adds(30, 4);
    assert Pow2(3) == 8 && Pow2(4) == 16;
    Pow2Adds(33, 10);
  }

  ghost predicate Nondecreasing(base: Duration, ceiling: Duration) {
    forall e1, e2 :: 1 <= e1 <= e2 ==> ProgressiveDelay(e1, base, ceiling) <= ProgressiveDelay(e2, base, ceiling)
  }

  ghost predicate NeverWrapsShort(base: Duration, ceiling: Duration) {
    forall shift :: 0 <= shift <= MAX_SHIFT ==> !WrapsShort(base, ceiling, shift)
  }

  lemma GrowsWithoutWrap(base: Duration, ceiling: Duration, e1: int, e2: int)
    requires base > 0 && NeverWrapsShort(base, ceiling) && 1 <= e1 <= e2
    ensures ProgressiveDelay(e1, base, ceiling) <= ProgressiveDelay(e2, base, ceiling)
  {
    Pow2Grows(e1 - 1, e2 - 1);
    ProductGrows(base, Pow2(e1 - 1), Pow2(e2 - 1));
    ExactWhenNoWrap(e1, base, ceiling);
    ExactWhenNoWrap(e2, base, ceiling);
  }

  /** Doubling crosses 2^63 at a shift whose product is still below 2^64: there it wraps to a negative value. */
  lemma {:induction false} FirstCrossing(base: Duration, shift: nat) returns (t: nat)
    requires base > 0 && TWO_63 <= base * Pow2(shift)
    ensures t <= shift && TWO_63 <= base * Pow2(t) < TWO_64 && Wrap64(base * Pow2(t)) < 0
  {
    if base * Pow2(shift) < TWO_64 {
      t := shift;
    } else {
      Assoc(base, 2, Pow2(shift - 1));
      Assoc(2, base, Pow2(shift - 1));
      t := FirstCrossing(base, shift - 1);
    }
  }

  lemma WrapBreaksGrowth(base: Duration, ceiling: Duration, shift: nat) returns (e1: int, e2: int)
    requires base > 0 && WrapsShort(base, ceiling, shift)
    ensures 1 <= e1 <= e2 && ProgressiveDelay(e1, base, ceiling) > ProgressiveDelay(e2, base, ceiling)
  {
    var t := FirstCrossing(base, shift);
    e1, e2 := t + 1, shift + 1;
  }

  /** The delay never falls as attempts pile up exactly when no shift within the cut-off wraps to a short value. */
  lemma NondecreasingIff(base: Duration, ceiling: Duration)
    requires base > 0
    ensures Nondecreasing(base, ceiling) <==> NeverWrapsShort(base, ceiling)
    ensures base * Pow2(MAX_SHIFT) < TWO_63 ==> Nondecreasing(base, ceiling)
  {
    if NeverWrapsShort(base, ceiling) {
      forall e1, e2 | 1 <= e1 <= e2 ensures ProgressiveDelay(e1, base, ceiling) <= ProgressiveDelay(e2, base, ceiling) {
        GrowsWithoutWrap(base, ceiling, e1, e2);
      }
    } else {
      var shift :| 0 <= shift <= MAX_SHIFT && WrapsShort(base, ceiling, shift);
      var e1, e2 := WrapBreaksGrowth(base, ceiling, shift);
      Pow2Grows(shift, MAX_SHIFT);
      ProductGrows(base, Pow2(shift), Pow2(MAX_SHIFT));
    }
  }

  /** It does fall for some settings: with a base just above 17.18 seconds and the default ceiling of 30 seconds, the
      30th attempt past the cap waits 30 seconds and the 31st about 1.07. */
  lemma DelayCanFall()
    ensures ProgressiveDelay(30, 0x4_0000_0001, DEFAULT_DELAY_MAX) == DEFAULT_DELAY_MAX
    ensures ProgressiveDelay(31, 0x4_0000_0001, DEFAULT_DELAY_MAX) == 0x4000_0000
    ensures !Nondecreasing(0x4_0000_0001, DEFAULT_DELAY_MAX)
  {
    SmallPowers();
    assert Pow2(30) == 2 * Pow2(29);
    assert 0x4_0000_0001 * Pow2(30) == TWO_64 + 0x4000_0000;
  }
}
