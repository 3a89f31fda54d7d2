/**
 Retry delays (`RetryBackoff`, `jittered_delay`) over unsigned 64-bit numbers that saturate.
 */
module Backoff {
  const U64_MAX := 0xFFFF_FFFF_FFFF_FFFF

  function Min(a: nat, b: nat): nat {
    if a <= b then a else b
  }

  function Max(a: nat, b: nat): nat {
    if a >= b then a else b
  }

  function SaturatingMul(a: nat, b: nat): nat {
    Min(a * b, U64_MAX)
  }

  function SaturatingAdd(a: nat, b: nat): nat {
    Min(a + b, U64_MAX)
  }

  function SaturatingSub(a: nat, b: nat): nat {
    if a >= b then a - b else 0
  }

  function Pow2(k: nat): nat {
    if k == 0 then 1 else 2 * Pow2(k - 1)
  }

  /** The k-th delay, without any bound on the numbers. */
  function DelayAt(initial: nat, max: nat, k: nat): nat {
    Min(initial * Pow2(k), max)
  }

  class RetryBackoff {
    var initialSecs: nat
    var maxSecs: nat
    var nextSecs: nat
    /** Delays handed out since construction or the last reset. */
    ghost var taken: nat

    ghost predicate Valid()
      reads this
    {
      1 <= initialSecs <= maxSecs <= U64_MAX && nextSecs == DelayAt(initialSecs, maxSecs, taken)
    }

    constructor (initial: nat, max: nat)
      requires initial <= U64_MAX && max <= U64_MAX
      ensures Valid() && taken == 0
      ensures initialSecs == Max(initial, 1) && maxSecs == Max(max, Max(initial, 1))
    {
      initialSecs := Max(initial, 1);
      maxSecs := Max(max, Max(initial, 1));
      nextSecs := Max(initial, 1);
      taken := 0;
    }

    method NextDelay() returns (delay: nat)
      requires Valid()
      modifies this`nextSecs, this`taken
      ensures Valid() && taken == old(taken) + 1
      ensures delay == DelayAt(initialSecs, maxSecs, old(taken))
    {
      DoublingSaturates(initialSecs, maxSecs, taken);
      delay := nextSecs;
      nextSecs := Min(SaturatingMul(nextSecs, 2), maxSecs);
      taken := taken + 1;
    }

    method Reset()
      requires Valid()
      modifies this`nextSecs, this`taken
      ensures Valid() && taken == 0
    {
      nextSecs := initialSecs;
      taken := 0;
    }
  }

  /** Saturation never shows: doubling with it, below the ceiling, is doubling without it. */
  lemma DoublingSaturates(initial: nat, max: nat, k: nat)
    requires max <= U64_MAX
    ensures Min(SaturatingMul(DelayAt(initial, max, k), 2), max) == DelayAt(initial, max, k + 1)
    ensures SaturatingMul(DelayAt(initial, max, k), 2) <= 0xFFFF_FFFF_FFFF_FFFF
  {
    assert initial * Pow2(k + 1) == 2 * (initial * Pow2(k));
  }

  lemma {:induction false} Pow2Grows(j: nat, k: nat)
    requires j <= k
    ensures 1 <= Pow2(j) <= Pow2(k)
    decreases k
  {
    if j < k {
      Pow2Grows(j, k - 1);
    } else if j > 0 {
      Pow2Grows(j - 1, j - 1);
    }
  }

  /** Delays never shrink, never reach zero and never pass the ceiling. */
  lemma DelaysGrow(initial: nat, max: nat, j: nat, k: nat)
    requires 1 <= initial <= max && j <= k
    ensures 1 <= DelayAt(initial, max, j) <= DelayAt(initial, max, k) <= max
  {
    Pow2Grows(j, k);
    Scale(initial, Pow2(j), Pow2(k));
    Scale(initial, 1, Pow2(j));
  }

  lemma Scale(a: nat, x: nat, y: nat)
    requires x <= y
    ensures a * x <= a * y
  {
  }

  lemma TwiceProduct(a: nat, b: nat)
    ensures 2 * (a * b) == (2 * a) * b
  {
  }

  lemma {:induction false} Pow2Adds(j: nat, k: nat)
    ensures Pow2(j + k) == Pow2(j) * Pow2(k)
  {
    if j > 0 {
      Pow2Adds(j - 1, k);
      TwiceProduct(Pow2(j - 1), Pow2(k));
      assert Pow2(j) == 2 * Pow2(j - 1) && Pow2(j + k) == 2 * Pow2(j - 1 + k);
    }
  }

  lemma Pow2Twice(k: nat, x: nat)
    requires Pow2(k) == x
    ensures Pow2(2 * k) == x * x
  {
    Pow2Adds(k, k);
  }

  lemma Pow2Of64()
    ensures Pow2(64) == U64_MAX + 1
  {
    Pow2Twice(2, 4);
    Pow2Twice(4, 16);
    Pow2Twice(8, 256);
    Pow2Twice(16, 65_536);
    Pow2Twice(32, 4_294_967_296);
  }

  /** From the 65th delay on, every delay is the ceiling. */
  lemma CeilingIsReached(initial: nat, max: nat, k: nat)
    requires 1 <= initial <= max <= U64_MAX && k >= 64
    ensures DelayAt(initial, max, k) == max
  {
    Pow2Of64();
    Pow2Grows(64, k);
    Scale(Pow2(k), 1, initial);
  }

  // ---------------------------------------------------------------------- jitter

  const NANOS_PER_MS := 1_000_000

  function Spread(baseMs: nat, percent: nat): nat {
    SaturatingMul(baseMs, Min(percent, 100)) / 100
  }

  lemma WholeMillis(ms: nat)
    ensures ms * NANOS_PER_MS % NANOS_PER_MS == 0 && ms * NANOS_PER_MS / NANOS_PER_MS == ms
  {
  }

  /** Durations are in nanoseconds; the choice within the range is arbitrary. */
  method JitteredDelay(base: nat, percent: nat) returns (delay: nat)
    ensures percent == 0 || base == 0 ==> delay == base
    ensures percent > 0 && base > 0 ==> Jittered(base, percent, delay)
  {
    if percent == 0 || base == 0 { return base; }
    var baseMs := Min(base / NANOS_PER_MS, U64_MAX);
    var spread := Spread(baseMs, percent);
    var lower := SaturatingSub(baseMs, spread);
    var upper := SaturatingAdd(baseMs, spread);
    RangeIsBand(baseMs, percent, baseMs);
    var ms :| lower <= ms <= upper;
    RangeIsBand(baseMs, percent, ms);
    WholeMillis(ms);
    delay := ms * NANOS_PER_MS;
  }

  /** No further from the base than the percentage allows. */
  predicate InBand(baseMs: nat, percent: nat, ms: nat) {
    && ms <= U64_MAX
    && (ms - baseMs) * 100 <= baseMs * Min(percent, 100)
    && (baseMs - ms) * 100 <= baseMs * Min(percent, 100)
  }

  /** A whole number of milliseconds in the band around the base in milliseconds. */
  predicate Jittered(base: nat, percent: nat, delay: nat) {
    delay % NANOS_PER_MS == 0 && InBand(Min(base / NANOS_PER_MS, U64_MAX), percent, delay / NANOS_PER_MS)
  }

  predicate InRange(baseMs: nat, percent: nat, ms: nat) {
    SaturatingSub(baseMs, Spread(baseMs, percent)) <= ms <= SaturatingAdd(baseMs, Spread(baseMs, percent))
  }

  /** The range drawn from is never empty and lies in the band; it is the whole band unless the product
      overflows. */
  lemma RangeIsBand(baseMs: nat, percent: nat, ms: nat)
    requires baseMs <= U64_MAX
    ensures InRange(baseMs, percent, baseMs)
    ensures SaturatingMul(baseMs, Min(percent, 100)) <= 0xFFFF_FFFF_FFFF_FFFF
    ensures SaturatingAdd(baseMs, Spread(baseMs, percent)) <= 0xFFFF_FFFF_FFFF_FFFF
    ensures InRange(baseMs, percent, ms) ==> InBand(baseMs, percent, ms)
    ensures baseMs * Min(percent, 100) <= U64_MAX && InBand(baseMs, percent, ms) ==> InRange(baseMs, percent, ms)
  {
    var p := Min(percent, 100);
    var product := baseMs * p;
    assert product <= baseMs * 100 by { Scale(baseMs, p, 100); }
    assert Spread(baseMs, percent) * 100 <= product;
    assert Spread(baseMs, percent) <= baseMs;
  }
}
