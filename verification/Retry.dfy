/** Retry delays: the outbox's, and the jittered exponential one other services use. */
module Retry {

  import opened Numbers

  function PowerOfTwo(n: nat): (p: nat)
    ensures p > 0
  {
    if n == 0 then 1 else 2 * PowerOfTwo(n - 1)
  }

  lemma {:induction false} PowersIncrease(m: nat, n: nat)
    requires m <= n
    ensures PowerOfTwo(m) <= PowerOfTwo(n)
    decreases n
  {
    if m < n {
      PowersIncrease(m, n - 1);
    }
  }

  // ----- The outbox -----

  const INITIAL_BACKOFF_MS := 1000
  const MAX_BACKOFF_MS := 300000

  /** The exponential part of the delay before delivery attempt number `attempt` is repeated. */
  function OutboxBase(attempt: nat): nat {
    var exponent := Minimum(if attempt == 0 then 0 else attempt - 1, 18);
    Minimum(INITIAL_BACKOFF_MS * PowerOfTwo(exponent), MAX_BACKOFF_MS)
  }

  /** The delay, with jitter drawn from a hash of the row and the attempt. */
  function OutboxDelay(attempt: nat, mixed: nat): nat {
    var base := OutboxBase(attempt);
    var window := Maximum(base / 5, 1);
    Minimum(base + mixed % window, MAX_BACKOFF_MS)
  }

  lemma OutboxBaseBounds(attempt: nat)
    ensures INITIAL_BACKOFF_MS <= OutboxBase(attempt) <= MAX_BACKOFF_MS
    ensures attempt >= 1 ==> OutboxBase(attempt + 1) == Minimum(2 * OutboxBase(attempt), MAX_BACKOFF_MS)
  {
    PowersIncrease(0, Minimum(if attempt == 0 then 0 else attempt - 1, 18));
    if attempt >= 10 {
      PowersIncrease(9, Minimum(attempt - 1, 18));
      PowersIncrease(9, Minimum(attempt, 18));
      assert PowerOfTwo(9) == 2 * PowerOfTwo(8) && PowerOfTwo(8) == 2 * PowerOfTwo(7) && PowerOfTwo(7) == 2 * PowerOfTwo(6);
      assert PowerOfTwo(6) == 2 * PowerOfTwo(5) && PowerOfTwo(5) == 2 * PowerOfTwo(4) && PowerOfTwo(4) == 16;
    }
  }

  /** The delay stays between its base and the cap. */
  lemma OutboxDelayBounds(attempt: nat, mixed: nat)
    ensures INITIAL_BACKOFF_MS <= OutboxBase(attempt) <= OutboxDelay(attempt, mixed) <= MAX_BACKOFF_MS
    ensures 5 * OutboxDelay(attempt, mixed) <= 6 * OutboxBase(attempt)
  {
    OutboxBaseBounds(attempt);
    hide OutboxBase;
    var window := Maximum(OutboxBase(attempt) / 5, 1);
    assert 0 <= mixed % window < window;
  }

  /** Every delay from the base up to a fifth more is drawn by some hash. */
  lemma OutboxDelaySpreads(attempt: nat, extra: nat)
    requires extra < OutboxBase(attempt) / 5
    ensures OutboxDelay(attempt, extra) == if OutboxBase(attempt) + extra <= 300000 then OutboxBase(attempt) + extra else 300000
  {
    hide OutboxBase;
    var window := OutboxBase(attempt) / 5;
    assert extra % window == extra;
  }

  /** From the first attempt on, a later attempt never waits less, whatever the jitter. */
  lemma {:induction false} OutboxDelayGrows(attempt: nat, later: nat, mixed: nat, mixed': nat)
    requires 1 <= attempt < later
    ensures OutboxDelay(attempt, mixed) <= OutboxDelay(later, mixed')
    decreases later
  {
    hide OutboxBase, OutboxDelay;
    OutboxDelayBounds(attempt, mixed);
    OutboxDelayBounds(later, mixed');
    OutboxBaseBounds(later - 1);
    if later > attempt + 1 {
      OutboxDelayGrows(attempt, later - 1, mixed, mixed);
      OutboxDelayBounds(later - 1, mixed);
    }
  }

  // ----- Deterministic jitter -----

  const JITTER_PERCENT := 20
  const DURATION_MAX := U64_MAX * 1000000000 + 999999999

  /** The capped exponential delay, in nanoseconds. */
  function Exponential(base: nat, max: nat, attempt: nat): nat {
    var factor := PowerOfTwo(Minimum(if attempt == 0 then 0 else attempt - 1, 31));
    Minimum(Minimum(base * factor, DURATION_MAX), max)
  }

  /** The delay with up to a fifth taken off; the product saturates at 128 bits. */
  function Jittered(delay: nat, random: nat): int {
    var window := Minimum(delay * JITTER_PERCENT, U128_MAX) / 100;
    var offset := Minimum(window * random, U128_MAX) / U64_MAX;
    delay - window + offset
  }

  lemma QuotientAtMost(a: nat, n: nat, unit: nat)
    requires unit > 0 && a <= n * unit
    ensures a / unit <= n
  {
    var q := a / unit;
    assert q * unit <= a;
    if q > n {
      MoreUnits(n, q, unit);
    }
  }

  lemma MoreUnits(n: nat, q: nat, unit: nat)
    requires q > n
    ensures q * unit >= n * unit + unit
  {
    assert q * unit >= (n + 1) * unit;
  }

  /** Saturation or not, the jittered delay keeps between four fifths of the delay and the delay. */
  lemma JitterBounds(delay: nat, random: nat)
    requires random <= U64_MAX
    ensures 4 * delay <= 5 * Jittered(delay, random) && Jittered(delay, random) <= delay
  {
    var window: nat := Minimum(delay * JITTER_PERCENT, U128_MAX) / 100;
    assert window * random <= window * U64_MAX;
    var product: nat := Minimum(window * random, U128_MAX);
    QuotientAtMost(product, window, U64_MAX);
  }

  /** The draw spreads the delay over that fifth: the least gives four fifths of it, the greatest all of it, and a
      greater draw never gives less. */
  lemma JitterSpreads(delay: nat, random: nat, random': nat)
    requires random <= random' <= U64_MAX
    ensures Jittered(delay, random) <= Jittered(delay, random')
    ensures delay * 20 <= U128_MAX ==> Jittered(delay, 0) == delay - delay / 5
    ensures delay * 20 <= U128_MAX && (delay / 5) * U64_MAX <= U128_MAX ==> Jittered(delay, U64_MAX) == delay
  {
    var window: nat := Minimum(delay * JITTER_PERCENT, U128_MAX) / 100;
    assert window * random <= window * random';
    FloorMonotone(Minimum(window * random, U128_MAX), Minimum(window * random', U128_MAX));
    assert window * 0 == 0;
    FloorOfMultiple(window);
  }

  lemma FloorMonotone(a: nat, b: nat)
    requires a <= b
    ensures a / U64_MAX <= b / U64_MAX
  {
  }

  lemma FloorOfMultiple(n: nat)
    ensures n * U64_MAX / U64_MAX == n
  {
  }

  /** Every delay lies between four fifths of the capped exponential and the cap; while the cap is
      not reached, the next one is not shorter. */
  lemma DeterministicBounds(base: nat, max: nat, attempt: nat, random: nat, random': nat)
    requires random <= U64_MAX && random' <= U64_MAX
    ensures 4 * Exponential(base, max, attempt) <= 5 * Jittered(Exponential(base, max, attempt), random)
    ensures Jittered(Exponential(base, max, attempt), random) <= max
    ensures attempt >= 1 && 2 * Exponential(base, max, attempt) <= Exponential(base, max, attempt + 1) ==>
              Jittered(Exponential(base, max, attempt), random) <= Jittered(Exponential(base, max, attempt + 1), random')
  {
    hide Jittered;
    JitterBounds(Exponential(base, max, attempt), random);
    JitterBounds(Exponential(base, max, attempt + 1), random');
    hide Exponential;
    ExponentialCapped(base, max, attempt);
  }

  /** The exponential delay in plain terms: the base at first, doubled by every attempt up to the 32nd, and from the
      cap on the cap. */
  lemma {:induction false} ExponentialDoubles(base: nat, max: nat, attempt: nat)
    requires max <= DURATION_MAX
    ensures base <= max ==> Exponential(base, max, 0) == Exponential(base, max, 1) == base
    ensures 1 <= attempt <= 31 ==>
              Exponential(base, max, attempt + 1) == (if 2 * Exponential(base, max, attempt) <= max then 2 * Exponential(base, max, attempt) else max)
    ensures attempt >= 32 ==> Exponential(base, max, attempt) == Exponential(base, max, 32)
  {
    assert PowerOfTwo(0) == 1;
    if 1 <= attempt <= 31 {
      assert PowerOfTwo(attempt) == 2 * PowerOfTwo(attempt - 1);
      assert base * PowerOfTwo(attempt) == 2 * (base * PowerOfTwo(attempt - 1));
    }
  }

  /** The outbox's delay in plain terms: one second after the first attempt, doubled by every further one up to five
      minutes, and up to a fifth more. */
  lemma OutboxBaseDoubles(attempt: nat)
    ensures OutboxBase(0) == OutboxBase(1) == 1000
    ensures attempt >= 1 ==> OutboxBase(attempt + 1) == if 2 * OutboxBase(attempt) <= 300000 then 2 * OutboxBase(attempt) else 300000
  {
    OutboxBaseBounds(attempt);
    assert PowerOfTwo(0) == 1;
  }

  lemma ExponentialCapped(base: nat, max: nat, attempt: nat)
    ensures Exponential(base, max, attempt) <= max
  {
  }

  const U32_MAX := 0xffff_ffff

  /** Consecutive failures of one service and the delay each of them asks for. */
  class Backoff {
    const base: nat
    const max: nat
    var failures: nat

    constructor (base: nat, max: nat)
      requires 0 < base <= max
      ensures this.base == base && this.max == max && failures == 0
    {
      this.base, this.max, failures := base, max, 0;
    }

    method Fail(random: nat) returns (delay: int)
      requires random <= U64_MAX
      modifies this
      ensures failures == Minimum(old(failures) + 1, U32_MAX)
      ensures delay == Jittered(Exponential(base, max, failures), random)
      ensures 4 * Exponential(base, max, failures) <= 5 * delay && delay <= max
    {
      failures := Minimum(failures + 1, U32_MAX);
      delay := Jittered(Exponential(base, max, failures), random);
      DeterministicBounds(base, max, failures, random, random);
    }

    /** A success: the delay of the next failure starts from the base again. */
    method Reset()
      requires base <= max
      modifies this
      ensures failures == 0 && Exponential(base, max, failures + 1) == Minimum(base, DURATION_MAX)
    {
      failures := 0;
      assert PowerOfTwo(0) == 1;
    }
  }
}
