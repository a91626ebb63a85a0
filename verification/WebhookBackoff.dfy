/** The retry delays of webhook deliveries: exponential backoff with equal jitter, over the reals. */
module WebhookBackoff {

  function Pow(b: real, n: nat): real {
    if n == 0 then 1.0 else b * Pow(b, n - 1)
  }

  /** Math.random() */
  predicate Dice(r: real) { 0.0 <= r < 1.0 }

  /** Half of the deterministic delay is fixed, the other half scaled by the draw. */
  function Jitter(delay: real, random: real): real {
    delay / 2.0 + random * (delay / 2.0)
  }

  /** The deterministic delay after `attemptsCompleted` attempts. */
  function FullDelay(attemptsCompleted: nat, base: real, factor: real): real
    requires attemptsCompleted > 0
  {
    base * Pow(factor, attemptsCompleted - 1)
  }

  function BackoffMs(attemptsCompleted: nat, base: real, factor: real, random: real): real
    requires attemptsCompleted > 0
  {
    Jitter(FullDelay(attemptsCompleted, base, factor), random)
  }

  ghost predicate Drawn(delay: real, d: real) {
    exists r :: Dice(r) && Jitter(delay, r) == d
  }

  /** d is a delay backoffMs can return after n attempts. */
  ghost predicate PossibleDelay(n: nat, base: real, factor: real, d: real)
    requires n > 0
  {
    Drawn(FullDelay(n, base, factor), d)
  }

  lemma {:induction false} Scale(a: real, b: real, k: real)
    requires k > 0.0
    ensures a < b <==> a * k < b * k
    ensures a <= b <==> a * k <= b * k
  {
  }

  lemma {:induction false} PowPositive(b: real, n: nat)
    requires b > 0.0
    ensures Pow(b, n) > 0.0
  {
    if n > 0 { PowPositive(b, n - 1); }
  }

  lemma {:induction false} HalfScaled(random: real, half: real)
    requires Dice(random) && half > 0.0
    ensures 0.0 <= random * half < half
  {
    Scale(random, 1.0, half);
    Scale(0.0, random, half);
    assert 1.0 * half == half && 0.0 * half == 0.0;
  }

  lemma {:induction false} JitterRange(delay: real, random: real)
    requires delay > 0.0 && Dice(random)
    ensures delay / 2.0 <= Jitter(delay, random) < delay
  {
    var half := delay / 2.0;
    HalfScaled(random, half);
    assert Jitter(delay, random) == half + random * half;
  }

  lemma {:induction false} JitterReaches(delay: real, d: real)
    requires delay > 0.0 && delay / 2.0 <= d < delay
    ensures Drawn(delay, d)
  {
    var half := delay / 2.0;
    var r := HalfDivided(d - half, half);
    assert Jitter(delay, r) == half + r * half;
  }

  lemma {:induction false} HalfDivided(x: real, half: real) returns (r: real)
    requires half > 0.0 && 0.0 <= x < half
    ensures Dice(r) && r * half == x
  {
    r := x / half;
    QuotientIsDice(r, x, half);
  }

  lemma {:induction false} QuotientIsDice(r: real, x: real, half: real)
    requires half > 0.0 && 0.0 <= x < half && r * half == x
    ensures Dice(r)
  {
    assert 1.0 * half == half && 0.0 * half == 0.0;
    Scale(r, 1.0, half);
    Scale(0.0, r, half);
  }

  /** A draw lands in [delay/2, delay), and every value there can be drawn. */
  lemma {:induction false} DrawnIff(delay: real, d: real)
    requires delay > 0.0
    ensures Drawn(delay, d) <==> delay / 2.0 <= d < delay
  {
    if Drawn(delay, d) {
      var r :| Dice(r) && Jitter(delay, r) == d;
      JitterRange(delay, r);
    }
    if delay / 2.0 <= d < delay { JitterReaches(delay, d); }
  }

  lemma {:induction false} FullDelayPositive(n: nat, base: real, factor: real)
    requires n > 0 && base > 0.0 && factor > 0.0
    ensures FullDelay(n, base, factor) > 0.0 && FullDelay(n + 1, base, factor) == factor * FullDelay(n, base, factor)
  {
    var p := Pow(factor, n - 1);
    PowPositive(factor, n - 1);
    Scale(0.0, base, p);
    assert 0.0 * p == 0.0;
    assert Pow(factor, n) == factor * p;
    assert base * (factor * p) == factor * (base * p);
  }

  /** backoffMs promises delays in [deterministic/2, deterministic): exactly those are possible. */
  lemma {:induction false} BackoffRange(n: nat, base: real, factor: real, d: real)
    requires n > 0 && base > 0.0 && factor > 0.0
    ensures PossibleDelay(n, base, factor, d) <==> FullDelay(n, base, factor) / 2.0 <= d < FullDelay(n, base, factor)
  {
    FullDelayPositive(n, base, factor);
    DrawnIff(FullDelay(n, base, factor), d);
  }

  lemma {:induction false} DrawsGrowIff(delay: real, later: real)
    requires 0.0 < delay <= later
    ensures 2.0 * delay <= later <==> forall d, e :: Drawn(delay, d) && Drawn(later, e) ==> d < e
  {
    forall d ensures Drawn(delay, d) <==> delay / 2.0 <= d < delay { DrawnIff(delay, d); }
    forall e ensures Drawn(later, e) <==> later / 2.0 <= e < later { DrawnIff(later, e); }
    if later < 2.0 * delay {
      assert Drawn(delay, later / 2.0) && Drawn(later, later / 2.0);
    }
  }

  lemma {:induction false} LaterDelay(full: real, factor: real, later: real)
    requires full > 0.0 && factor >= 1.0 && later == factor * full
    ensures full <= later && (factor >= 2.0 <==> 2.0 * full <= later)
  {
    assert 1.0 * full == full;
    Scale(1.0, factor, full);
    Scale(2.0, factor, full);
  }

  /**
   * Every delay after attempt n is below every delay after the next one, whatever is drawn, exactly when factor >= 2.
   */
  lemma {:induction false} DelaysGrowIffFactorTwo(n: nat, next: nat, base: real, factor: real)
    requires 0 < n && next == n + 1 && base > 0.0 && factor >= 1.0
    ensures factor >= 2.0
      <==> forall d, e :: PossibleDelay(n, base, factor, d) && PossibleDelay(next, base, factor, e) ==> d < e
  {
    var full, later := FullDelay(n, base, factor), FullDelay(next, base, factor);
    FullDelayPositive(n, base, factor);
    LaterDelay(full, factor, later);
    DrawsGrowIff(full, later);
    if forall d, e :: PossibleDelay(n, base, factor, d) && PossibleDelay(next, base, factor, e) ==> d < e {
      forall d, e | Drawn(full, d) && Drawn(later, e) ensures d < e {
        assert PossibleDelay(n, base, factor, d) && PossibleDelay(next, base, factor, e);
      }
    }
  }

  /** Sum of the delays after attempts 1..n, with draws dice[0..n]. */
  function TotalBackoff(n: nat, base: real, factor: real, dice: seq<real>): real
    requires n <= |dice|
  {
    if n == 0 then 0.0 else TotalBackoff(n - 1, base, factor, dice) + BackoffMs(n, base, factor, dice[n - 1])
  }

  /** n retries of one delivery together wait less than base*(factor^n - 1)/(factor - 1). */
  lemma {:induction false} TotalBackoffIsBounded(n: nat, base: real, factor: real, dice: seq<real>)
    requires n <= |dice| && base > 0.0 && factor > 1.0 && forall i :: 0 <= i < n ==> Dice(dice[i])
    ensures TotalBackoff(n, base, factor, dice) * (factor - 1.0) <= base * (Pow(factor, n) - 1.0)
    ensures n > 0 ==> TotalBackoff(n, base, factor, dice) * (factor - 1.0) < base * (Pow(factor, n) - 1.0)
  {
    if n > 0 {
      TotalBackoffIsBounded(n - 1, base, factor, dice);
      PowPositive(factor, n - 1);
      var p, b, t := Pow(factor, n - 1), BackoffMs(n, base, factor, dice[n - 1]),
        TotalBackoff(n - 1, base, factor, dice);
      Scale(0.0, base, p);
      assert 0.0 * p == 0.0;
      JitterRange(base * p, dice[n - 1]);
      Scale(b, base * p, factor - 1.0);
      Telescope(t, b, p, base, factor);
    }
  }

  /** And they wait at least half of that. */
  lemma {:induction false} TotalBackoffIsAtLeastHalf(n: nat, base: real, factor: real, dice: seq<real>)
    requires n <= |dice| && base > 0.0 && factor > 1.0 && forall i :: 0 <= i < n ==> Dice(dice[i])
    ensures base * (Pow(factor, n) - 1.0) <= (2.0 * TotalBackoff(n, base, factor, dice)) * (factor - 1.0)
  {
    if n > 0 {
      TotalBackoffIsAtLeastHalf(n - 1, base, factor, dice);
      PowPositive(factor, n - 1);
      var p, b, t := Pow(factor, n - 1), BackoffMs(n, base, factor, dice[n - 1]),
        TotalBackoff(n - 1, base, factor, dice);
      Scale(0.0, base, p);
      assert 0.0 * p == 0.0;
      JitterRange(base * p, dice[n - 1]);
      Scale(base * p, 2.0 * b, factor - 1.0);
      TelescopeBelow(2.0 * t, 2.0 * b, p, base, factor);
      assert 2.0 * t + 2.0 * b == 2.0 * (t + b);
    }
  }

  lemma {:induction false} TelescopeBelow(t: real, b: real, p: real, base: real, factor: real)
    requires base * (p - 1.0) <= t * (factor - 1.0) && (base * p) * (factor - 1.0) <= b * (factor - 1.0)
    ensures base * (factor * p - 1.0) <= (t + b) * (factor - 1.0)
  {
    assert (t + b) * (factor - 1.0) == t * (factor - 1.0) + b * (factor - 1.0);
    assert (base * p) * (factor - 1.0) == base * (factor * p) - base * p;
    assert base * (p - 1.0) == base * p - base;
    assert base * (factor * p - 1.0) == base * (factor * p) - base;
  }

  lemma {:induction false} Telescope(t: real, b: real, p: real, base: real, factor: real)
    requires t * (factor - 1.0) <= base * (p - 1.0) && b * (factor - 1.0) < (base * p) * (factor - 1.0)
    ensures (t + b) * (factor - 1.0) < base * (factor * p - 1.0)
  {
    assert (t + b) * (factor - 1.0) == t * (factor - 1.0) + b * (factor - 1.0);
    assert (base * p) * (factor - 1.0) == base * (factor * p) - base * p;
    assert base * (p - 1.0) == base * p - base;
    assert base * (factor * p - 1.0) == base * (factor * p) - base;
  }
}
