/** The retry delay of `_retry_or_fail_set`. */
module Backoff {
  import opened Options

  /** A value of random(). */
  type Jitter = r: real | 0.0 <= r < 1.0 witness 0.0

  function Pow2(n: nat): nat { if n == 0 then 1 else 2 * Pow2(n - 1) }

  /** The cast from float8 to int8: to the nearest integer, halves to the even one. */
  function Round(x: real): int {
    var low := x.Floor;
    var rest := x - low as real;
    if rest < 0.5 || (rest == 0.5 && low % 2 == 0) then low else low + 1
  }

  function MinReal(a: real, b: real): real { if a < b then a else b }

  /** The jittered exponential delay before the cap. */
  function Uncapped(delay: int, retryCount: nat, jitter: Jitter): real {
    var p := Pow2(Min(16, retryCount + 1)) as real;
    Jittered(delay as real, p / 2.0, jitter)
  }

  function Jittered(delay: real, half: real, jitter: Jitter): real {
    delay * (half + half * jitter)
  }

  /** Seconds until the next attempt of a job with retry_backoff. */
  function Delay(delay: int, cap: Option<int>, retryCount: nat, jitter: Jitter): int {
    var raw := Uncapped(delay, retryCount, jitter);
    Round(if cap.Some? then MinReal(cap.value as real, raw) else raw)
  }

  /** Seconds until the next attempt of any job. */
  function Pause(backoff: bool, delay: int, cap: Option<int>, retryCount: nat, jitter: Jitter): int {
    if backoff then Delay(delay, cap, retryCount, jitter) else delay
  }

  /** The least delay any jitter can give after `k` retries. */
  function LeastDelay(delay: int, cap: Option<int>, k: nat): int {
    var full := delay * Pow2(Min(15, k));
    if cap.Some? then Min(cap.value, full) else full
  }

  /** The sum of the least pauses after 0, 1, .., n - 1 retries. */
  function LeastWait(backoff: bool, delay: int, cap: Option<int>, n: nat): int {
    if n == 0 then 0
    else LeastWait(backoff, delay, cap, n - 1) + if backoff then LeastDelay(delay, cap, n - 1) else delay
  }

  /** Rounding goes to a nearest integer, to the even one of two, and keeps every integer bound. */
  lemma RoundKeepsIntegerBounds(x: real, n: int)
    ensures -0.5 <= Round(x) as real - x <= 0.5
    ensures Round(x) as real - x in {-0.5, 0.5} ==> Round(x) % 2 == 0
    ensures x >= n as real ==> Round(x) >= n
    ensures x <= n as real ==> Round(x) <= n
  {
  }

  lemma JitterBounds(d: real, h: real, jitter: Jitter)
    requires d >= 0.0 && h >= 0.0
    ensures d * h <= Jittered(d, h, jitter) <= 2.0 * (d * h)
  {
    var product := d * h;
    assert product >= 0.0;
    assert d * (h + h * jitter) == product + product * jitter;
    assert 0.0 <= product * jitter <= product;
  }

  /** Before the cap, every jitter gives between one and two times the full step. */
  lemma UncappedBounds(delay: nat, k: nat, jitter: Jitter)
    ensures (delay * Pow2(Min(15, k))) as real <= Uncapped(delay, k, jitter)
    ensures Uncapped(delay, k, jitter) <= (2 * (delay * Pow2(Min(15, k)))) as real
  {
    var half := Pow2(Min(15, k));
    PowHalves(k);
    CastBounds(delay, half, jitter);
  }

  lemma CastBounds(delay: nat, half: nat, jitter: Jitter)
    ensures (delay * half) as real <= Jittered(delay as real, half as real, jitter) <= (2 * (delay * half)) as real
  {
    ProductOfCasts(delay, half);
    JitterBounds(delay as real, half as real, jitter);
  }

  lemma PowHalves(k: nat)
    ensures Pow2(Min(16, k + 1)) as real / 2.0 == Pow2(Min(15, k)) as real
  {
    assert Pow2(Min(16, k + 1)) == 2 * Pow2(Min(15, k));
  }

  /** Every jitter keeps the delay between the least delay and twice the full step, and never above the cap. */
  lemma DelayBounds(delay: nat, cap: Option<int>, k: nat, jitter: Jitter)
    ensures LeastDelay(delay, cap, k) <= Delay(delay, cap, k, jitter)
    ensures Delay(delay, cap, k, jitter) <= 2 * (delay * Pow2(Min(15, k)))
    ensures cap.Some? ==> Delay(delay, cap, k, jitter) <= cap.value
  {
    UncappedBounds(delay, k, jitter);
    var raw := Uncapped(delay, k, jitter);
    var full := delay * Pow2(Min(15, k));
    var x := if cap.Some? then MinReal(cap.value as real, raw) else raw;
    RoundKeepsIntegerBounds(x, if cap.Some? then Min(cap.value, full) else full);
    RoundKeepsIntegerBounds(x, 2 * full);
    if cap.Some? { RoundKeepsIntegerBounds(x, cap.value); }
  }

  lemma Doubled(d: int, p: int)
    ensures d * (p - 1) + d * p == d * (2 * p - 1)
  {
  }

  /** Without a cap, the first n <= 16 least delays form a geometric series. */
  lemma {:induction false} GeometricWait(delay: int, n: nat)
    requires n <= 16
    ensures LeastWait(true, delay, None, n) == delay * (Pow2(n) - 1)
  {
    if n > 0 {
      GeometricWait(delay, n - 1);
      assert Min(15, n - 1) == n - 1;
      Doubled(delay, Pow2(n - 1));
    }
  }

  /** Without backoff, n pauses take n times the delay. */
  lemma {:induction false} FixedWait(delay: int, cap: Option<int>, n: nat)
    ensures LeastWait(false, delay, cap, n) == n * delay
  {
    if n > 0 { FixedWait(delay, cap, n - 1); }
  }
}
