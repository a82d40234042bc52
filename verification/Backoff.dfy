/**
 The three retry delays of the SDK and the jitter added to them.

 Durations are nanoseconds held in a Go `int64`; where the source can overflow,
 the wrap-around is written out with `Wrap64`.
 */
module Backoff {
  const SECOND := 1_000_000_000
  const BASE_BACKOFF_DELAY := 500_000_000
  const MAX_BACKOFF_DELAY := 60 * SECOND
  const TWO_62 := 0x4000_0000_0000_0000
  const TWO_63 := 0x8000_0000_0000_0000
  const TWO_64 := 0x1_0000_0000_0000_0000

  predicate IsInt64(x: int) {
    -TWO_63 <= x < TWO_63
  }

  /** Two's complement truncation to 64 bits. */
  function Wrap64(x: int): (r: int)
    ensures IsInt64(r)
    ensures IsInt64(x) ==> r == x
  {
    (x + TWO_63) % TWO_64 - TWO_63
  }

  function Pow2(n: nat): (r: nat)
    ensures r >= 1
  {
    if n == 0 then 1 else 2 * Pow2(n - 1)
  }

  function Min(a: int, b: int): int {
    if a < b then a else b
  }

  /** The closed form all three delays aim at: `min(base * 2^(n-1), cap)`. */
  function Nominal(base: int, attempt: int, cap: int): int {
    Min(base * Pow2(if attempt < 1 then 0 else attempt - 1), cap)
  }

  lemma {:induction false} Pow2Monotone(a: nat, b: nat)
    requires a <= b
    ensures Pow2(a) <= Pow2(b)
    decreases b
  {
    if a < b {
      Pow2Monotone(a, b - 1);
    }
  }

  lemma {:induction false} Pow2Sum(a: nat, b: nat)
    ensures Pow2(a + b) == Pow2(a) * Pow2(b)
  {
    if a == 0 {
    } else {
      Pow2Sum(a - 1, b);
      assert Pow2(a) * Pow2(b) == 2 * (Pow2(a - 1) * Pow2(b));
    }
  }

  lemma Pow2Values()
    ensures Pow2(34) == 0x4_0000_0000
    ensures Pow2(62) == TWO_62
  {
    assert Pow2(4) == 16;
    Pow2Sum(4, 4);
    Pow2Sum(8, 8);
    Pow2Sum(16, 16);
    Pow2Sum(2, 32);
    Pow2Sum(30, 32);
    Pow2Sum(16, 14);
    Pow2Sum(8, 6);
    assert Pow2(2) == 4 && Pow2(6) == 64;
  }

  lemma ScaleAtLeast(k: int, p: int)
    requires k >= 1 && p >= 0
    ensures k * p >= p
  {
    assert k * p == p + (k - 1) * p;
    assert (k - 1) * p >= 0;
  }

  // ---------------------------------------------------------------- jitter

  /** The outcome of one read of the system's random source. */
  datatype Draw = Drawn(seed: nat) | DrawFailed

  /** Any value below `max` may be drawn; when the random source fails it is `max / 2`. */
  function CryptoJitter(max: int, draw: Draw): (r: int)
    ensures max > 0 ==> 0 <= r < max
    ensures max <= 0 ==> r == 0
    ensures draw.Drawn? && draw.seed < max ==> r == draw.seed
    ensures draw.DrawFailed? && max > 0 ==> 2 * r <= max < 2 * r + 2
  {
    if max <= 0 then 0
    else match draw
      case Drawn(seed) => seed % max
      case DrawFailed => max / 2
  }

  /** Go's division by two, which truncates toward zero. */
  function Half(d: int): int {
    if d >= 0 then d / 2 else -((-d) / 2)
  }

  function HalfJittered(d: int, draw: Draw): int {
    Half(d) + CryptoJitter(Half(d), draw)
  }

  lemma HalfJitteredBounds(d: int, draw: Draw)
    requires d >= 0
    ensures d / 2 <= HalfJittered(d, draw) <= d
    ensures d >= 2 ==> HalfJittered(d, draw) < d
  {
  }

  /** Every value from half the delay up to twice that half is some wait, and no other. */
  lemma HalfJitteredExactly(d: int, wait: int)
    requires d >= 2
    ensures (exists draw :: HalfJittered(d, draw) == wait) <==> d / 2 <= wait < 2 * (d / 2)
  {
    if d / 2 <= wait < 2 * (d / 2) {
      assert HalfJittered(d, Drawn(wait - d / 2)) == wait;
    }
  }

  // ------------------------------------------------ nhi: early-capped doubling

  /** `backoffWithJitter` before its jitter: the loop that doubles and stops early. */
  method NhiBase(attempt: int) returns (base: int)
    ensures base == Nominal(BASE_BACKOFF_DELAY, attempt, MAX_BACKOFF_DELAY)
  {
    base := BASE_BACKOFF_DELAY;
    var i := 1;
    while i < attempt
      invariant 1 <= i && (i <= attempt || attempt < 1 == i)
      invariant base == BASE_BACKOFF_DELAY * Pow2(i - 1) <= MAX_BACKOFF_DELAY
    {
      if base >= MAX_BACKOFF_DELAY / 2 {
        Pow2Monotone(i, attempt - 1);
        base := MAX_BACKOFF_DELAY;
        break;
      }
      base := base * 2;
      i := i + 1;
    }
  }

  /** The whole `backoffWithJitter`: at least the nominal delay, less than twice it. */
  method NhiBackoff(attempt: int, draw: Draw) returns (delay: int)
    ensures var b := Nominal(BASE_BACKOFF_DELAY, attempt, MAX_BACKOFF_DELAY);
            && b <= delay < 2 * b
            && delay == b + CryptoJitter(b, draw)
  {
    var base := NhiBase(attempt);
    NominalPositive(BASE_BACKOFF_DELAY, attempt, MAX_BACKOFF_DELAY);
    delay := base + CryptoJitter(base, draw);
  }

  /** Every value from the nominal delay up to twice that is some wait of `backoffWithJitter`, and no other. */
  lemma NhiBackoffExactly(attempt: int, wait: int)
    ensures var b := Nominal(BASE_BACKOFF_DELAY, attempt, MAX_BACKOFF_DELAY);
            (exists draw :: b + CryptoJitter(b, draw) == wait) <==> b <= wait < 2 * b
  {
    var b := Nominal(BASE_BACKOFF_DELAY, attempt, MAX_BACKOFF_DELAY);
    NominalPositive(BASE_BACKOFF_DELAY, attempt, MAX_BACKOFF_DELAY);
    if b <= wait < 2 * b {
      assert b + CryptoJitter(b, Drawn(wait - b)) == wait;
    }
  }

  lemma NominalPositive(base: int, attempt: int, cap: int)
    requires base > 0 && cap > 0
    ensures 0 < Nominal(base, attempt, cap) <= cap
  {
    var p := Pow2(if attempt < 1 then 0 else attempt - 1);
    ScaleAtLeast(base, p);
  }

  /** TypeScript: `Math.min(60_000, 500 * 2 ** Math.max(0, attempt - 1))`, in milliseconds. */
  function TypeScriptBaseMillis(attempt: int): int {
    Min(60_000, 500 * Pow2(if 0 < attempt - 1 then attempt - 1 else 0))
  }

  /** The Go loop and the TypeScript formula agree for every attempt number. */
  lemma GoMatchesTypeScript(attempt: int)
    ensures Nominal(BASE_BACKOFF_DELAY, attempt, MAX_BACKOFF_DELAY)
         == TypeScriptBaseMillis(attempt) * 1_000_000
  {
    var p := Pow2(if attempt < 1 then 0 else attempt - 1);
    assert BASE_BACKOFF_DELAY * p == (500 * p) * 1_000_000;
  }

  // -------------------------------------------- credential: iterative doubling

  /** `delay *= 2; if delay > MaxDelay { delay = MaxDelay }` on an int64. */
  function NextRenewerDelay(delay: int, cap: int): int {
    var doubled := Wrap64(2 * delay);
    if doubled > cap then cap else doubled
  }

  /** The value of `delay` during attempt `n` of `performRenewal`. */
  function RenewerDelay(base: int, cap: int, n: nat): int
    requires n >= 1
  {
    if n == 1 then base else NextRenewerDelay(RenewerDelay(base, cap, n - 1), cap)
  }

  ghost predicate RenewerDelayIsNominal(base: int, cap: int) {
    forall n: nat :: n >= 1 ==> RenewerDelay(base, cap, n) == Nominal(base, n, cap)
  }

  lemma {:induction false} RenewerDelayNominalUpTo(base: int, cap: int, n: nat)
    requires 0 < base <= cap < TWO_62 && n >= 1
    ensures RenewerDelay(base, cap, n) == Nominal(base, n, cap)
  {
    if n > 1 {
      RenewerDelayNominalUpTo(base, cap, n - 1);
      NominalPositive(base, n - 1, cap);
      assert base * Pow2(n - 1) == 2 * (base * Pow2(n - 2));
    }
  }

  lemma {:induction false} RenewerDelayIsInt64(base: int, cap: int, n: nat)
    requires IsInt64(base) && IsInt64(cap) && n >= 1
    ensures IsInt64(RenewerDelay(base, cap, n))
  {
    if n == 1 {
    } else {
      RenewerDelayIsInt64(base, cap, n - 1);
    }
  }

  /** A negative delay doubles until it leaves the range of an int64, where the closed form still goes. */
  lemma NegativeDelayStrays(base: int, cap: int)
    requires base < 0 && IsInt64(base) && IsInt64(cap)
    ensures !RenewerDelayIsNominal(base, cap)
  {
    RenewerDelayIsInt64(base, cap, 65);
    Pow2Values();
    Pow2Sum(62, 2);
    assert Pow2(2) == 4 && Pow2(64) == TWO_64;
    ScaleAtLeast(-base, Pow2(64));
    assert base * Pow2(64) == -((-base) * Pow2(64));
    assert RenewerDelay(base, cap, 65) != Nominal(base, 65, cap);
  }

  /**
   For every delay the configuration lets through, the doubling loop follows its closed form for ever if and only
   if the first delay is positive and within the cap and the cap is below 2^62; at 2^62 the doubling wraps negative.
   */
  lemma RenewerDelayExact(base: int, cap: int)
    requires base != 0 && IsInt64(base) && IsInt64(cap)
    ensures RenewerDelayIsNominal(base, cap) <==> 0 < base <= cap < TWO_62
  {
    if base < 0 {
      NegativeDelayStrays(base, cap);
    } else if base <= cap < TWO_62 {
      forall n: nat | n >= 1 ensures RenewerDelay(base, cap, n) == Nominal(base, n, cap) {
        RenewerDelayNominalUpTo(base, cap, n);
      }
    } else if cap < base {
      assert RenewerDelay(base, cap, 1) != Nominal(base, 1, cap);
    } else {
      RenewerDelayWraps(base, cap);
    }
  }

  lemma RenewerDelayWraps(base: int, cap: int)
    requires 0 < base <= cap && TWO_62 <= cap < TWO_63
    ensures !RenewerDelayIsNominal(base, cap)
  {
    Pow2Values();
    ScaleAtLeast(base, Pow2(62));
    NominalPositive(base, 64, cap);
    var d := RenewerDelay(base, cap, 63);
    if d == Nominal(base, 63, cap) {
      assert RenewerDelay(base, cap, 64) == NextRenewerDelay(d, cap) < 0;
    }
  }

  // --------------------------------------------------- transport: direct power

  /**
   `time.Duration(math.Pow(2, attempt-1))`. Beyond int64 the conversion is left to the
   platform, so the value is a parameter there.
   */
  function PowAsDuration(exponent: nat, platform: int): int {
    if Pow2(exponent) < TWO_63 then Pow2(exponent) else Wrap64(platform)
  }

  /** `BackoffDelay` before its jitter, called with `attempt >= 1`. */
  function TransportBase(base: int, cap: int, attempt: nat, platform: int): int
    requires attempt >= 1
  {
    var delay := Wrap64(base * PowAsDuration(attempt - 1, platform));
    if delay > cap then cap else delay
  }

  /** The product fits: the delay is the closed form, whatever the platform does. */
  lemma TransportDelayNominal(base: int, cap: int, attempt: nat, platform: int, draw: Draw)
    requires attempt >= 1 && 0 <= base && 0 <= cap && base * Pow2(attempt - 1) < TWO_63
    ensures TransportBase(base, cap, attempt, platform) == Nominal(base, attempt, cap)
    ensures var d := Nominal(base, attempt, cap);
            d / 2 <= HalfJittered(TransportBase(base, cap, attempt, platform), draw) <= d
  {
    var p := Pow2(attempt - 1);
    if base > 0 {
      ScaleAtLeast(base, p);
    }
    HalfJitteredBounds(Nominal(base, attempt, cap), draw);
  }

  ghost predicate TransportDelaysNominal(base: int, cap: int, last: nat, platform: nat -> int) {
    forall n: nat :: 1 <= n <= last ==> TransportBase(base, cap, n, platform(n)) == Nominal(base, n, cap)
  }

  /** The first attempt whose product does not fit has a negative delay, whatever the platform does. */
  lemma OverflowIsNegative(base: int, cap: int, n: nat, platform: int)
    requires 2 <= base && 0 <= cap && n >= 2 && base * Pow2(n - 2) < TWO_63 <= base * Pow2(n - 1)
    ensures TransportBase(base, cap, n, platform) < 0
  {
    var p := Pow2(n - 2);
    assert Pow2(n - 1) == 2 * p;
    assert base * p == 2 * p + (base - 2) * p;
    assert base * (2 * p) == 2 * (base * p);
  }

  lemma {:induction false} FirstOverflow(base: int, last: nat) returns (n: nat)
    requires 2 <= base < TWO_63 && last >= 1 && base * Pow2(last - 1) >= TWO_63
    ensures 2 <= n <= last && base * Pow2(n - 2) < TWO_63 <= base * Pow2(n - 1)
  {
    assert last >= 2;
    if base * Pow2(last - 2) < TWO_63 {
      n := last;
    } else {
      n := FirstOverflow(base, last - 1);
    }
  }

  lemma {:induction false} EarlierFits(base: int, n: nat, last: nat)
    requires 0 <= base && 1 <= n <= last && base * Pow2(last - 1) < TWO_63
    ensures base * Pow2(n - 1) < TWO_63
  {
    Pow2Monotone(n - 1, last - 1);
    TimesMonotone(base, Pow2(n - 1), Pow2(last - 1));
  }

  lemma TimesMonotone(b: int, p: int, q: int)
    requires 0 <= b && p <= q
    ensures b * p <= b * q
  {
  }

  /** One nanosecond doubled: from the 64th attempt on the factor itself does not fit, and the platform decides. */
  lemma OneNanosecond(cap: int, n: nat, platform: int)
    requires 0 <= cap < TWO_63 && n >= 1
    ensures Pow2(n - 1) < TWO_63 <==> n < 64
    ensures TransportBase(1, cap, n, platform) == Nominal(1, n, cap) <==> n < 64 || Wrap64(platform) >= cap
  {
    Pow2Values();
    assert Pow2(63) == TWO_63;
    if n < 64 {
      Pow2Monotone(n - 1, 62);
    } else {
      Pow2Monotone(63, n - 1);
    }
  }

  lemma OneNanosecondExact(cap: int, last: nat, platform: nat -> int)
    requires 0 <= cap < TWO_63 && last >= 1
    ensures TransportDelaysNominal(1, cap, last, platform)
       <==> Pow2(last - 1) < TWO_63 || forall n: nat :: 64 <= n <= last ==> Wrap64(platform(n)) >= cap
  {
    forall n: nat | n >= 1
      ensures TransportBase(1, cap, n, platform(n)) == Nominal(1, n, cap) <==> n < 64 || Wrap64(platform(n)) >= cap
    {
      OneNanosecond(cap, n, platform(n));
    }
    OneNanosecond(cap, last, platform(last));
  }

  lemma SeveralNanosecondsExact(base: int, cap: int, last: nat, platform: nat -> int)
    requires 0 <= base < TWO_63 && base != 1 && 0 <= cap < TWO_63 && last >= 1
    ensures TransportDelaysNominal(base, cap, last, platform) <==> base * Pow2(last - 1) < TWO_63
  {
    if base * Pow2(last - 1) < TWO_63 {
      forall n: nat | 1 <= n <= last ensures TransportBase(base, cap, n, platform(n)) == Nominal(base, n, cap) {
        EarlierFits(base, n, last);
        TransportDelayNominal(base, cap, n, platform(n), DrawFailed);
      }
    } else {
      var n := FirstOverflow(base, last);
      OverflowIsNegative(base, cap, n, platform(n));
      assert Nominal(base, n, cap) >= 0;
    }
  }

  /** The product of attempt `n` is an int64. */
  predicate Fits(base: int, n: nat)
    requires n >= 1
  {
    IsInt64(base * Pow2(n - 1))
  }

  lemma NegativeEarlierFits(base: int, n: nat, last: nat)
    requires base < 0 && 1 <= n <= last && Fits(base, last)
    ensures Fits(base, n)
  {
    var p, q := Pow2(n - 1), Pow2(last - 1);
    Pow2Monotone(n - 1, last - 1);
    TimesMonotone(-base, p, q);
    assert base * p == -((-base) * p) && base * q == -((-base) * q);
  }

  /** From the 64th attempt on only minus one still fits, and only there. */
  lemma NegativeLateFits(base: int, n: nat)
    requires base < 0 && n >= 64 && Fits(base, n)
    ensures base == -1 && n == 64 && Pow2(n - 1) == TWO_63
  {
    var p := Pow2(n - 1);
    Pow2Values();
    assert Pow2(63) == TWO_63;
    Pow2Monotone(63, n - 1);
    if n >= 65 {
      assert Pow2(64) == TWO_64;
      Pow2Monotone(64, n - 1);
    }
    assert base * p == -p + (base + 1) * p;
    TimesMonotone(p, base + 1, 0);
    if base <= -2 {
      TimesMonotone(p, base + 1, -1);
    }
  }

  /** A negative base: the product has to fit, and where the factor itself does not, the platform has to hit it. */
  lemma NegativeAttempt(base: int, cap: int, n: nat, platform: int)
    requires -TWO_63 <= base < 0 <= cap < TWO_63 && n >= 1
    ensures TransportBase(base, cap, n, platform) == Nominal(base, n, cap)
       <==> Fits(base, n) && (n >= 64 ==> Wrap64(platform) == -TWO_63)
  {
    OneNanosecond(cap, n, platform);
    var p := Pow2(n - 1);
    TimesMonotone(p, base, 0);
    assert base * p == p * base <= 0;
    if n >= 64 && Fits(base, n) {
      NegativeLateFits(base, n);
    }
  }

  lemma NegativeBaseExact(base: int, cap: int, last: nat, platform: nat -> int)
    requires -TWO_63 <= base < 0 <= cap < TWO_63 && last >= 1
    ensures TransportDelaysNominal(base, cap, last, platform)
       <==> Fits(base, last) && (base == -1 && last == 64 ==> Wrap64(platform(64)) == -TWO_63)
  {
    NegativeAttempt(base, cap, last, platform(last));
    if Fits(base, last) && last >= 64 {
      NegativeLateFits(base, last);
    }
    if Fits(base, last) && (last >= 64 ==> Wrap64(platform(last)) == -TWO_63) {
      forall n: nat | 1 <= n <= last ensures TransportBase(base, cap, n, platform(n)) == Nominal(base, n, cap) {
        NegativeEarlierFits(base, n, last);
        NegativeAttempt(base, cap, n, platform(n));
      }
    }
  }

  /**
   The first `last` delays all follow the closed form if and only if the last of the products still fits; from
   the first one that does not, a positive delay has become negative and nothing is waited for. A base of one
   nanosecond, of either sign, is the one case in which the 64th attempt and those after it are up to the platform.
   */
  lemma TransportDelayExact(base: int, cap: int, last: nat, platform: nat -> int)
    requires IsInt64(base) && 0 <= cap < TWO_63 && last >= 1
    ensures TransportDelaysNominal(base, cap, last, platform)
       <==> || (Fits(base, last) && (base == -1 && last == 64 ==> Wrap64(platform(64)) == -TWO_63))
            || (base == 1 && forall n: nat :: 64 <= n <= last ==> Wrap64(platform(n)) >= cap)
  {
    if base < 0 {
      NegativeBaseExact(base, cap, last, platform);
    } else if base == 1 {
      OneNanosecondExact(cap, last, platform);
    } else {
      SeveralNanosecondsExact(base, cap, last, platform);
    }
  }
}
