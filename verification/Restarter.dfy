/** The restart backoff (src/process/restarter.rs). */
module Restarter {
  const U64_MAX: nat := 0xFFFF_FFFF_FFFF_FFFF
  const MAX_DELAY_MS: nat := 60_000

  function PowerOfTwo(exponent: nat): (power: nat)
    ensures 1 <= power
  {
    if exponent == 0 then 1 else 2 * PowerOfTwo(exponent - 1)
  }

  function SaturatingMul(a: nat, b: nat): nat {
    if a * b <= U64_MAX then a * b else U64_MAX
  }

  function Smaller(a: nat, b: nat): nat {
    if a < b then a else b
  }

  /** The delay in milliseconds before a restart attempt. */
  function BackoffDelay(base: nat, attempt: nat): nat {
    Smaller(SaturatingMul(base, PowerOfTwo(Smaller(attempt, 8))), MAX_DELAY_MS)
  }

  lemma {:induction false} PowerGrows(low: nat, high: nat)
    requires low <= high
    ensures PowerOfTwo(low) <= PowerOfTwo(high)
    decreases high - low
  {
    if low < high {
      PowerGrows(low, high - 1);
    }
  }

  lemma ProductGrows(base: nat, a: nat, b: nat)
    requires a <= b
    ensures base * a <= base * b
  {
  }

  /** The delay never shrinks from one attempt to the next, never exceeds a minute, is never
      below the capped base delay, and stays constant from the ninth attempt on. */
  lemma BackoffIsMonotoneAndCapped(base: nat, attempt: nat, later: nat)
    requires attempt <= later
    ensures Smaller(base, MAX_DELAY_MS) <= BackoffDelay(base, attempt) <= BackoffDelay(base, later) <= MAX_DELAY_MS
    ensures 8 <= attempt ==> BackoffDelay(base, attempt) == BackoffDelay(base, later)
  {
    PowerGrows(0, Smaller(attempt, 8));
    PowerGrows(Smaller(attempt, 8), Smaller(later, 8));
    ProductGrows(base, 1, PowerOfTwo(Smaller(attempt, 8)));
    ProductGrows(base, PowerOfTwo(Smaller(attempt, 8)), PowerOfTwo(Smaller(later, 8)));
  }

  /** The multipliers of the nine different delays. */
  const MULTIPLIERS: seq<nat> := [1, 2, 4, 8, 16, 32, 64, 128, 256]

  lemma {:induction false} PowersAreMultipliers(exponent: nat)
    requires exponent <= 8
    ensures PowerOfTwo(exponent) == MULTIPLIERS[exponent]
  {
    if exponent > 0 {
      PowersAreMultipliers(exponent - 1);
    }
  }

  /** The delay doubles with every attempt, 256 times the base at most, and never more than a
      minute; saturation at 64 bits makes no difference. */
  lemma BackoffDoubles(base: nat, attempt: nat)
    ensures BackoffDelay(base, attempt) == Smaller(base * MULTIPLIERS[Smaller(attempt, 8)], MAX_DELAY_MS)
    ensures attempt < 8 ==> BackoffDelay(base, attempt + 1) == Smaller(2 * BackoffDelay(base, attempt), MAX_DELAY_MS)
  {
    PowersAreMultipliers(Smaller(attempt, 8));
    PowersAreMultipliers(Smaller(attempt + 1, 8));
  }
}
