/**
  Time arithmetic of the key pool: durations, deadlines, the pool policy and the exponential
  backoff with its jitter.  Instants and durations are counted in nanoseconds.
 */
module Durations {
  import opened Prelude

  type Instant = nat

  const SECOND: nat := 1_000_000_000
  const TWO_TO_THE_64: nat := 0x1_0000_0000_0000_0000

  // The largest representable duration: 2^64 - 1 seconds and 999_999_999 nanoseconds.
  const DURATION_MAX: nat := TWO_TO_THE_64 * SECOND - 1

  type Duration = d: nat | d <= DURATION_MAX

  // The ceiling on any cooldown deadline: 90 days.
  const MAX_COOLDOWN: Duration := 90 * 24 * 3600 * SECOND

  function SaturatingAdd(a: Duration, b: Duration): Duration {
    Min(a + b, DURATION_MAX)
  }

  function SaturatingDouble(a: Duration): Duration {
    Min(2 * a, DURATION_MAX)
  }

  // A cooldown as a deadline, clamped to MAX_COOLDOWN first.
  function DeadlineAfter(now: Instant, cooldown: Duration): (deadline: Instant)
    ensures now <= deadline <= now + MAX_COOLDOWN
    ensures deadline <= now + cooldown
  {
    now + Min(cooldown, MAX_COOLDOWN)
  }

  // The later of an optional deadline and a new one.
  function Later(current: Option<Instant>, deadline: Instant): Instant {
    if current.Some? then Max(current.value, deadline) else deadline
  }

  // `a` is no later than `b`, where no deadline at all precedes every deadline.
  predicate NotLater(a: Option<Instant>, b: Option<Instant>) {
    a.Some? ==> b.Some? && a.value <= b.value
  }

  datatype PolicyError =
    | ZeroBackoffInitial | BackoffMaxTooSmall | ZeroThreshold
    | ZeroBreakerCooldown | ZeroWaitTimeout | BadMaxAttempts

  datatype Policy = Policy(
    backoffInitial: Duration,
    backoffMax: Duration,
    breakerThreshold: nat,
    breakerCooldown: Duration,
    waitTimeout: Duration,
    maxAttempts: nat)
  {
    // The first violated rule, in the order in which they are checked.
    function Validate(): Option<PolicyError> {
      if backoffInitial == 0 then Some(ZeroBackoffInitial)
      else if backoffMax < backoffInitial then Some(BackoffMaxTooSmall)
      else if breakerThreshold == 0 then Some(ZeroThreshold)
      else if breakerCooldown == 0 then Some(ZeroBreakerCooldown)
      else if waitTimeout == 0 then Some(ZeroWaitTimeout)
      else if !(1 <= maxAttempts <= 2) then Some(BadMaxAttempts)
      else None
    }

    predicate Valid() {
      Validate().None?
    }

    // How long one half-open claim holds the key.
    function ProbeHold(): Duration {
      Min(breakerCooldown, MAX_COOLDOWN)
    }
  }

  // What a policy must satisfy.
  lemma ValidIff(p: Policy)
    ensures p.Valid() <==>
              && 0 < p.backoffInitial <= p.backoffMax && 0 < p.breakerThreshold && 0 < p.breakerCooldown
              && 0 < p.waitTimeout && (p.maxAttempts == 1 || p.maxAttempts == 2)
  {
  }

  function Pow2(n: nat): (r: nat)
    ensures r > 0
  {
    if n == 0 then 1 else 2 * Pow2(n - 1)
  }

  lemma {:induction false} Pow2Monotone(m: nat, n: nat)
    requires m <= n
    ensures Pow2(m) <= Pow2(n)
  {
    if m < n {
      Pow2Monotone(m, n - 1);
    }
  }

  // The backoff at a step: the initial value doubled at most twenty times, capped.
  function Backoff(policy: Policy, step: nat): Duration {
    Min(policy.backoffInitial * Pow2(Min(step, 20)), policy.backoffMax)
  }

  lemma DoublingPastTheCap(initial: nat, cap: nat, i: nat, n: nat)
    requires i <= n
    requires initial * Pow2(i) >= cap
    ensures initial * Pow2(n) >= cap
  {
    Pow2Monotone(i, n);
    assert initial * Pow2(i) <= initial * Pow2(n);
  }

  lemma Pow2Zero()
    ensures Pow2(0) == 1
  {
  }

  lemma ScaledDoubles(a: nat, i: nat)
    ensures a * Pow2(i + 1) == 2 * (a * Pow2(i))
  {
  }

  // The loop with its early exit and saturating doubling computes the closed form.
  method BackoffAt(policy: Policy, step: nat) returns (d: Duration)
    ensures d == Backoff(policy, step)
  {
    hide Pow2;
    Pow2Zero();
    d := policy.backoffInitial;
    var rounds := Min(step, 20);
    var i := 0;
    while i < rounds
      invariant 0 <= i <= rounds
      invariant d <= policy.backoffMax || i == 0
      invariant i == 0 ==> d == policy.backoffInitial
      invariant Min(d, policy.backoffMax) == Min(policy.backoffInitial * Pow2(i), policy.backoffMax)
    {
      if d >= policy.backoffMax {
        DoublingPastTheCap(policy.backoffInitial, policy.backoffMax, i, rounds);
        break;
      }
      ScaledDoubles(policy.backoffInitial, i);
      d := Min(SaturatingDouble(d), policy.backoffMax);
      i := i + 1;
    }
    d := Min(d, policy.backoffMax);
  }

  lemma ScaledMonotone(a: nat, x: nat, y: nat)
    requires x <= y
    ensures a * x <= a * y
  {
  }

  lemma BackoffMonotone(policy: Policy, s: nat, t: nat)
    requires s <= t
    ensures Backoff(policy, s) <= Backoff(policy, t) <= policy.backoffMax
    ensures policy.Valid() ==> policy.backoffInitial <= Backoff(policy, s)
  {
    var lo, hi := Pow2(Min(s, 20)), Pow2(Min(t, 20));
    assert 1 <= lo <= hi by {
      Pow2Monotone(Min(s, 20), Min(t, 20));
    }
    ScaledMonotone(policy.backoffInitial, 1, lo);
    ScaledMonotone(policy.backoffInitial, lo, hi);
  }

  // The backoff starts at its initial value, doubles with each of twenty steps until it meets its
  // ceiling, and stays there.
  lemma BackoffDoubles(policy: Policy, step: nat)
    ensures Backoff(policy, 0) == Min(policy.backoffInitial, policy.backoffMax)
    ensures step < 20 ==> Backoff(policy, step + 1) == Min(2 * Backoff(policy, step), policy.backoffMax)
    ensures step >= 20 ==> Backoff(policy, step) == Backoff(policy, 20)
  {
    hide Pow2;
    Pow2Zero();
    ScaledDoubles(policy.backoffInitial, step);
  }

  // The three rounds of the xorshift generator behind the production jitter.  None of them maps a
  // non-zero word to zero, so a seeded generator never degenerates to its fixed point.
  function XorLeft13(x: bv64): (r: bv64)
    ensures x != 0 ==> r != 0
  {
    x ^ (x << 13)
  }

  function XorRight7(x: bv64): (r: bv64)
    ensures x != 0 ==> r != 0
  {
    x ^ (x >> 7)
  }

  function XorLeft17(x: bv64): (r: bv64)
    ensures x != 0 ==> r != 0
  {
    x ^ (x << 17)
  }

  function XorShift(x: bv64): (r: bv64)
    ensures x != 0 ==> r != 0
  {
    XorLeft17(XorRight7(XorLeft13(x)))
  }

  // The truncating cast of a 128-bit nanosecond count to 64 bits.
  function TruncateTo64(n: nat): (r: nat)
    ensures r < TWO_TO_THE_64 && r <= n
  {
    n % TWO_TO_THE_64
  }

  // The saturating successor of a 64-bit value: the modulus of the jitter draw.
  function JitterModulus(base: Duration): (m: nat)
    ensures 0 < m < TWO_TO_THE_64
    ensures m <= base / 2 + 1
    ensures base / 2 + 1 < TWO_TO_THE_64 ==> m == base / 2 + 1
  {
    Min(TruncateTo64(base / 2) + 1, TWO_TO_THE_64 - 1)
  }

  // What a draw of `word` makes of a duration.
  function Spread(base: Duration, word: bv64): (d: Duration)
    ensures base <= d <= base + base / 2
  {
    SaturatingAdd(base, word as nat % JitterModulus(base))
  }

  class UniformJitter {
    var rng: bv64

    constructor (seed: bv64)
      ensures rng != 0
    {
      rng := if seed == 0 then 1 else seed;
    }

    // Spreads a duration upwards by at most half of itself, saturating at the largest duration.
    method Jitter(base: Duration) returns (d: Duration)
      requires rng != 0
      modifies this
      ensures rng == XorShift(old(rng)) && rng != 0
      ensures base <= d <= base + base / 2
      ensures d == Spread(base, rng)
    {
      rng := XorShift(rng);
      var offset := rng as nat % JitterModulus(base);
      d := SaturatingAdd(base, offset);
    }
  }

  // The duration really grows exactly if there is room for it and the word is no multiple of the
  // modulus.
  lemma GrowsIff(base: Duration, word: bv64)
    ensures Spread(base, word) > base <==> base < DURATION_MAX && word as nat % JitterModulus(base) != 0
  {
  }

  // Every word is the next draw of some state of the generator, which is not zero unless the word is.
  lemma EveryWordIsDrawn(word: bv64) returns (state: bv64)
    ensures XorShift(state) == word && (word != 0 ==> state != 0)
  {
    var y := UndoLeft17(word);
    var z := UndoRight7(y);
    state := UndoLeft13(z);
  }

  lemma UndoLeft13(y: bv64) returns (x: bv64)
    ensures XorLeft13(x) == y
  {
    x := y ^ (y << 13) ^ (y << 26) ^ (y << 39) ^ (y << 52);
  }

  lemma UndoRight7(y: bv64) returns (x: bv64)
    ensures XorRight7(x) == y
  {
    x := y ^ (y >> 7) ^ (y >> 14) ^ (y >> 21) ^ (y >> 28) ^ (y >> 35) ^ (y >> 42) ^ (y >> 49) ^ (y >> 56) ^ (y >> 63);
  }

  lemma UndoLeft17(y: bv64) returns (x: bv64)
    ensures XorLeft17(x) == y
  {
    x := y ^ (y << 17) ^ (y << 34) ^ (y << 51);
  }

  // Some draw makes the duration grow exactly if there is room for it and the modulus leaves a choice.
  lemma CanGrowIff(base: Duration)
    ensures (exists word: bv64 :: word != 0 && Spread(base, word) > base)
       <==> base < DURATION_MAX && JitterModulus(base) > 1
  {
    hide JitterModulus;
    GrowsIff(base, 1);
    if exists word: bv64 :: word != 0 && Spread(base, word) > base {
      var word: bv64 :| word != 0 && Spread(base, word) > base;
      GrowsIff(base, word);
    }
  }

  // A word that is a multiple of the modulus leaves the duration as it is, and the generator does
  // come to draw it.
  lemma LeftAsItIs(base: Duration, word: bv64) returns (state: bv64)
    requires word != 0 && word as nat % JitterModulus(base) == 0
    ensures state != 0 && Spread(base, XorShift(state)) == base
  {
    hide XorShift;
    state := EveryWordIsDrawn(word);
    GrowsIff(base, word);
  }

  // One nanosecond is never spread, and one second is not from some state.
  lemma SometimesNoJitter() returns (state: bv64)
    ensures forall word: bv64 :: Spread(1, word) == 1
    ensures state != 0 && Spread(SECOND, XorShift(state)) == SECOND
  {
    hide XorShift;
    assert JitterModulus(SECOND) == 500_000_001;
    state := LeftAsItIs(SECOND, 500_000_001);
  }

  // The Retry-After header of a wait: whole seconds, rounded up, never zero.
  function RetryAfterSecs(wait: nat): (secs: nat)
    ensures secs >= 1
    ensures secs * SECOND >= wait
    ensures secs > 1 ==> (secs - 1) * SECOND < wait
  {
    Max((wait + SECOND - 1) / SECOND, 1)
  }

  lemma RetryAfterRange(wait: nat)
    requires wait <= MAX_COOLDOWN
    ensures 1 <= RetryAfterSecs(wait) <= 7_776_000
  {
  }
}
