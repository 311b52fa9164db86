/**
 When the reschedule loop of a repeating timer ends.  In 64-bit arithmetic the due
 time runs around a circle in steps of the interval; whether it ever lands past
 `now` is decided by the largest power of 2 that divides the interval.
 */
module Rescheduling {
  import opened Limits
  import opened Timing

  // ------------------------------------------------------------- powers of two

  function Pow2(n: nat): (p: nat)
    ensures 0 < p
  {
    if n == 0 then 1 else 2 * Pow2(n - 1)
  }

  lemma {:induction false} Pow2Add(a: nat, b: nat)
    ensures Pow2(a + b) == Pow2(a) * Pow2(b)
  {
    if a != 0 {
      Pow2Add(a - 1, b);
      assert 2 * Pow2(a - 1) * Pow2(b) == 2 * (Pow2(a - 1) * Pow2(b));
    }
  }

  lemma SmallPowers()
    ensures Pow2(2) == 4 && Pow2(8) == 256
  {
    assert Pow2(4) == 16;
  }

  lemma TwoTo64()
    ensures Pow2(64) == TWO64
    ensures Pow2(50) == 0x4_0000_0000_0000
  {
    hide Pow2;
    SmallPowers();
    Pow2Add(8, 8);
    Pow2Add(16, 16);
    Pow2Add(32, 32);
    Pow2Add(32, 16);
    Pow2Add(48, 2);
  }

  /** How often 2 divides `n`. */
  function Twos(n: nat): (v: nat)
    requires 0 < n
  {
    if n % 2 == 1 then 0 else 1 + Twos(n / 2)
  }

  /** What is left of `n` without its factors 2. */
  function Odd(n: nat): (m: nat)
    requires 0 < n
    ensures m % 2 == 1
  {
    if n % 2 == 1 then n else Odd(n / 2)
  }

  lemma {:induction false} TwosAndOdd(n: nat)
    requires 0 < n
    ensures n == Odd(n) * Pow2(Twos(n))
  {
    if n % 2 == 0 {
      var half := n / 2;
      TwosAndOdd(half);
      DoubleProduct(Odd(half), Pow2(Twos(half)));
      assert Twos(n) == 1 + Twos(half) && Odd(n) == Odd(half);
    } else {
      assert Pow2(0) == 1;
    }
  }

  lemma DoubleProduct(a: int, b: int)
    ensures a * (2 * b) == 2 * (a * b)
  {
  }

  lemma {:induction false} TwosBelow(n: nat, e: nat)
    requires 0 < n < Pow2(e)
    ensures Twos(n) < e
  {
    if n % 2 == 0 {
      TwosBelow(n / 2, e - 1);
    }
  }

  /** An odd number can be multiplied to any residue modulo a power of 2. */
  lemma {:induction false} OddReaches(odd: nat, target: int, n: nat) returns (x: nat, q: int)
    requires odd % 2 == 1
    ensures x * odd == target + q * Pow2(n)
  {
    if n == 0 {
      x, q := 0, -target;
    } else {
      var y, r := OddReaches(odd, target, n - 1);
      var half := Pow2(n - 1);
      if r % 2 == 0 {
        x, q := y, r / 2;
        DoubleProduct(r / 2, half);
      } else {
        x, q := y + half, (r + odd) / 2;
        DoubleProduct((r + odd) / 2, half);
        assert r + odd == 2 * ((r + odd) / 2);
        assert (y + half) * odd == y * odd + odd * half;
        assert r * half + odd * half == (r + odd) * half;
      }
    }
  }

  // -------------------------------------------------------------- the exact bound

  /** The largest power of 2 that divides the interval. */
  function Grain(interval: U64): (g: nat)
    requires 0 < interval
    ensures 0 < g
  {
    Pow2(Twos(interval))
  }

  /** A whole number of grains makes up the circle. */
  lemma GrainsInCircle(interval: U64)
    requires 0 < interval
    ensures Twos(interval) < 64 && Grain(interval) <= TWO64
    ensures TWO64 == Pow2(64 - Twos(interval)) * Grain(interval)
  {
    TwoTo64();
    TwosBelow(interval, 64);
    var n := 64 - Twos(interval);
    Pow2Add(n, Twos(interval));
    MulAtLeast(Pow2(n), Grain(interval));
  }

  /** The last place on the circle that due times can reach. */
  ghost function Farthest(due: U64, interval: U64): (t: U64)
    requires 0 < interval
  {
    GrainsInCircle(interval);
    TWO64 - Grain(interval) + due % Grain(interval)
  }

  lemma Regroup(due: nat, g: nat, steps: nat, odd: nat, turns: int, m: nat)
    requires 0 < g
    ensures due + steps * (odd * g) - turns * (m * g) == (due / g + steps * odd - turns * m) * g + due % g
  {
    assert due == due / g * g + due % g;
    assert steps * (odd * g) == steps * odd * g;
    assert turns * (m * g) == turns * m * g;
  }

  /** Every due time keeps its residue modulo the grain, so it cannot pass the farthest place. */
  lemma WrappedBound(due: U64, interval: U64, k: nat)
    requires 0 < interval
    ensures Wrapped(due, interval, k) <= Farthest(due, interval)
  {
    hide Pow2, Twos, Odd, Grain;
    GrainsInCircle(interval);
    var g, m, t := Grain(interval), Pow2(64 - Twos(interval)), Slot(due, interval, k);
    TwosAndOdd(interval);
    GrainIs(interval);
    var turns := t / TWO64;
    Regroup(due, g, k, Odd(interval), turns, m);
    var c := due / g + k * Odd(interval) - turns * m;
    assert t % TWO64 == c * g + due % g;
    if c >= m {
      MulMonotone(m, c, g);
    } else {
      assert (m - 1 - c) * g == m * g - g - c * g;
      MulMonotone(0, m - 1 - c, g);
    }
  }

  lemma GrainIs(interval: U64)
    requires 0 < interval
    ensures Grain(interval) == Pow2(Twos(interval))
  {
  }

  /** Some number of additions reaches the farthest place. */
  lemma FarthestReached(due: U64, interval: U64) returns (k: nat)
    requires 0 < interval
    ensures 1 <= k && Wrapped(due, interval, k) == Farthest(due, interval)
  {
    hide Pow2, Twos, Odd, Grain, Slot;
    GrainsInCircle(interval);
    var n := 64 - Twos(interval);
    var g, m := Grain(interval), Pow2(n);
    TwosAndOdd(interval);
    GrainIs(interval);
    var x, q := OddReaches(Odd(interval), m - 1 - due / g, n);
    Regroup(due, g, x, Odd(interval), q, m);
    assert Slot(due, interval, x) == q * TWO64 + Farthest(due, interval) by { SlotIs(due, interval, x); }
    DivisionIsUnique(Slot(due, interval, x), TWO64, q, Farthest(due, interval));
    FullCircle(due, interval, x);
    k := x + TWO64;
  }

  lemma SlotIs(first: nat, interval: nat, k: nat)
    ensures Slot(first, interval, k) == first + k * interval
  {
  }

  /**
   The reschedule loop ends exactly when `now` lies before the farthest place, which
   is all of the circle but its last grain.
   */
  lemma RescheduleEndsIff(due: U64, interval: U64, now: U64)
    requires 0 < interval
    ensures Ends(due, interval, now) <==> now < Farthest(due, interval)
  {
    if now < Farthest(due, interval) {
      var k := FarthestReached(due, interval);
      SomeExit(due, interval, now, k);
    } else if Ends(due, interval, now) {
      var k: nat :| LeavesAt(due, interval, now, k);
      WrappedBound(due, interval, k);
    }
  }

  // -------------------------------------------------------------------- witnesses

  lemma {:induction false} TwosOf(odd: nat, v: nat)
    requires odd % 2 == 1
    ensures 0 < odd * Pow2(v) && Twos(odd * Pow2(v)) == v
  {
    if v != 0 {
      TwosOf(odd, v - 1);
      DoubleProduct(odd, Pow2(v - 1));
    }
  }

  const SPINNING_MS: nat := 0x1000_0000_0000

  /** An interval of 2^44 milliseconds is 15625 grains of 2^50 nanoseconds. */
  lemma SpinningGrain()
    ensures 0 < MsToNs(SPINNING_MS) && Grain(MsToNs(SPINNING_MS)) == 0x4_0000_0000_0000
  {
    hide Pow2, Twos;
    TwoTo64();
    TwosOf(15_625, 50);
    assert MsToNs(SPINNING_MS) == 15_625 * Pow2(50);
    GrainIs(MsToNs(SPINNING_MS));
  }

  /** A timer with such an interval, first due at 0 and served in the last grain, is rescheduled for ever. */
  lemma RescheduleCanSpin(now: U64)
    requires TWO64 - 0x4_0000_0000_0000 <= now
    ensures !Ends(FirstDue(0, MsToNs(0)), MsToNs(SPINNING_MS), now)
  {
    SpinningGrain();
    RescheduleEndsIff(0, MsToNs(SPINNING_MS), now);
  }

  lemma CountsDown(due: U64, k: nat)
    ensures k <= due ==> Wrapped(due, TWO64 - 1, k) == due - k
    ensures k == due + 1 ==> Wrapped(due, TWO64 - 1, k) == TWO64 - 1
  {
    assert Slot(due, TWO64 - 1, k) == due + k * TWO64 - k;
    if k <= due {
      DivisionIsUnique(Slot(due, TWO64 - 1, k), TWO64, k, due - k);
    } else if k == due + 1 {
      DivisionIsUnique(Slot(due, TWO64 - 1, k), TWO64, due, TWO64 - 1);
    }
  }

  /**
   The longest intervals saturate at 2^64 - 1, so that each addition takes one
   nanosecond away.  Served at `now`, such a timer goes through `due` + 1 additions
   to the last nanosecond of the circle, which is off its grid unless it was due at 0.
   */
  lemma SaturatedIntervalLeavesTheGrid(due: U64, ms: nat, now: U64)
    requires ms * NS_PER_MS >= TWO64 && due <= now < TWO64 - 1
    ensures var interval := MsToNs(ms);
            && LeavesAt(due, interval, now, due + 1)
            && Ends(due, interval, now) && Rescheduled(due, interval, now) == TWO64 - 1
            && ((exists k: nat :: Slot(due, interval, k) == TWO64 - 1) <==> due == 0)
  {
    var interval := MsToNs(ms);
    forall k: nat | 1 <= k <= due + 1
      ensures Wrapped(due, interval, k) == if k <= due then due - k else TWO64 - 1
    {
      CountsDown(due, k);
    }
    RescheduledAt(due, interval, now, due + 1);
    forall k: nat | 1 <= k
      ensures due + interval <= Slot(due, interval, k)
    {
      MulMonotone(1, k, interval);
    }
    assert Slot(due, interval, 1) == due + interval;
  }
}
