/**
 The unsigned 64-bit nanosecond arithmetic of the event loop: saturating
 conversion, drift-corrected rescheduling and the rounding of a wait timeout.
 */
module Timing {
  import opened Limits

  const NS_PER_MS: nat := 1_000_000

  type U64 = x: nat | x < TWO64

  // ---------------------------------------------------------------- division

  /** Quotient and remainder are determined by `x == q * d + r` and `0 <= r < d`. */
  lemma DivisionIsUnique(x: nat, d: nat, q: int, r: nat)
    requires r < d && x == q * d + r
    ensures x / d == q && x % d == r
  {
    var gap := q - x / d;
    assert x == x / d * d + x % d;
    assert gap * d == x % d - r by { assert gap * d == q * d - x / d * d; }
    assert gap * d == -((-gap) * d);
    if gap >= 1 {
      MulAtLeast(gap, d);
    } else if gap <= -1 {
      MulAtLeast(-gap, d);
    }
  }

  lemma MulAtLeast(a: int, d: nat)
    requires a >= 1
    ensures a * d >= d
  {
    assert a * d == (a - 1) * d + d;
  }

  lemma MulMonotone(a: nat, b: nat, d: nat)
    requires a <= b
    ensures a * d <= b * d
  {
    assert b * d == a * d + (b - a) * d;
  }

  // ------------------------------------------------------------- conversions

  /** Milliseconds to nanoseconds, saturating at the largest 64-bit value. */
  function MsToNs(ms: nat): (ns: U64)
    ensures ms * NS_PER_MS < TWO64 ==> ns == ms * NS_PER_MS
    ensures ms * NS_PER_MS >= TWO64 ==> ns == TWO64 - 1
  {
    if ms > (TWO64 - 1) / NS_PER_MS then TWO64 - 1 else ms * NS_PER_MS
  }

  /** The due time a new timer gets: the 64-bit sum of the clock and its delay. */
  function FirstDue(now: U64, delay: U64): (due: U64) {
    (now + delay) % TWO64
  }

  /**
   A new timer waits out its delay exactly when the sum does not wrap; when it
   does wrap the timer is already due on arrival.
   */
  lemma DelayHonouredIff(now: U64, delay: U64)
    ensures FirstDue(now, delay) == now + delay <==> now + delay < TWO64
    ensures now < FirstDue(now, delay) <==> 0 < delay && now + delay < TWO64
  {
    if now + delay >= TWO64 {
      DivisionIsUnique(now + delay, TWO64, 1, now + delay - TWO64);
    }
  }

  /** The longest delays saturate, wrap, and fire at once. */
  lemma SaturatedDelayFiresAtOnce(now: U64, ms: nat)
    requires 0 < now && ms * NS_PER_MS >= TWO64
    ensures FirstDue(now, MsToNs(ms)) == now - 1
  {
    DivisionIsUnique(now + (TWO64 - 1), TWO64, 1, now - 1);
  }

  // -------------------------------------------------------------- rescheduling

  /** Slot number `k` of a timer first due at `first`. */
  function Slot(first: nat, interval: nat, k: nat): (t: nat)
    ensures k == 0 ==> t == first
  {
    assert 0 <= k * interval by { MulMonotone(0, k, interval); }
    first + k * interval
  }

  /** How many slots of the grid have come due by time `t`. */
  function SlotsBy(first: nat, interval: nat, t: nat): (n: nat)
    requires 0 < interval
  {
    if t < first then 0 else (t - first) / interval + 1
  }

  /** The first slot after `now`: the closed form of the reschedule loop. */
  function NextSlot(due: nat, interval: nat, now: nat): (slot: nat)
    requires 0 < interval && due <= now
    ensures now < slot <= now + interval
  {
    var k := (now - due) / interval;
    assert now - due == k * interval + (now - due) % interval;
    assert Slot(due, interval, k + 1) == due + k * interval + interval;
    Slot(due, interval, k + 1)
  }

  lemma SlotStep(first: nat, interval: nat, k: nat)
    ensures Slot(first, interval, k + 1) == Slot(first, interval, k) + interval
  {
    assert (k + 1) * interval == k * interval + interval;
  }

  lemma SlotsAdd(first: nat, interval: nat, j: nat, k: nat)
    ensures Slot(Slot(first, interval, j), interval, k) == Slot(first, interval, j + k)
  {
    assert (j + k) * interval == j * interval + k * interval;
  }

  /** A slot is due by `t` exactly when its number is below the number of slots due. */
  lemma SlotDueIff(first: nat, interval: nat, k: nat, t: nat)
    requires 0 < interval
    ensures Slot(first, interval, k) <= t <==> k < SlotsBy(first, interval, t)
  {
    if first <= t {
      var q := (t - first) / interval;
      assert t - first == q * interval + (t - first) % interval;
      if k <= q {
        MulMonotone(k, q, interval);
      } else {
        MulMonotone(q + 1, k, interval);
        assert (q + 1) * interval == q * interval + interval;
      }
    } else {
      assert first <= Slot(first, interval, k);
    }
  }

  // ---------------------------------------------------- rescheduling in 64 bits

  /** The value of the due field after `k` turns of the reschedule loop. */
  function Wrapped(due: U64, interval: U64, k: nat): (t: U64) {
    Slot(due, interval, k) % TWO64
  }

  lemma WrappedStep(due: U64, interval: U64, k: nat)
    ensures Wrapped(due, interval, k + 1) == (Wrapped(due, interval, k) + interval) % TWO64
  {
    var t := Slot(due, interval, k);
    SlotStep(due, interval, k);
    var q := (t % TWO64 + interval) / TWO64;
    assert t == t / TWO64 * TWO64 + t % TWO64;
    assert t + interval == (t / TWO64 + q) * TWO64 + (t % TWO64 + interval) % TWO64 by {
      assert (t / TWO64 + q) * TWO64 == t / TWO64 * TWO64 + q * TWO64;
    }
    DivisionIsUnique(t + interval, TWO64, t / TWO64 + q, (t % TWO64 + interval) % TWO64);
  }

  /** Advancing twice on the 64-bit circle. */
  lemma {:induction false} WrappedAdd(due: U64, interval: U64, j: nat, k: nat)
    ensures Wrapped(Wrapped(due, interval, j), interval, k) == Wrapped(due, interval, j + k)
  {
    if k == 0 {
      SmallMod(Wrapped(due, interval, j));
    } else {
      WrappedAdd(due, interval, j, k - 1);
      WrappedStep(Wrapped(due, interval, j), interval, k - 1);
      WrappedStep(due, interval, j + k - 1);
    }
  }

  lemma SmallMod(x: U64)
    ensures x % TWO64 == x
  {
    DivisionIsUnique(x, TWO64, 0, x);
  }

  /** The loop has come full circle after 2^64 additions. */
  lemma FullCircle(due: U64, interval: U64, k: nat)
    ensures Wrapped(due, interval, k + TWO64) == Wrapped(due, interval, k)
  {
    var t := Slot(due, interval, k);
    SlotsAdd(due, interval, k, TWO64);
    assert Slot(due, interval, k + TWO64) == (t / TWO64 + interval) * TWO64 + t % TWO64;
    DivisionIsUnique(Slot(due, interval, k + TWO64), TWO64, t / TWO64 + interval, t % TWO64);
  }

  /** The reschedule loop leaves after exactly `k` additions. */
  ghost predicate LeavesAt(due: U64, interval: U64, now: U64, k: nat) {
    && 1 <= k
    && now < Wrapped(due, interval, k)
    && forall j: nat :: 1 <= j < k ==> Wrapped(due, interval, j) <= now
  }

  ghost predicate Ends(due: U64, interval: U64, now: U64) {
    exists k: nat :: LeavesAt(due, interval, now, k)
  }

  /** After how many additions the reschedule loop leaves, if it does. */
  ghost function Exit(due: U64, interval: U64, now: U64): (k: nat)
    requires Ends(due, interval, now)
    ensures LeavesAt(due, interval, now, k)
  {
    var k: nat :| LeavesAt(due, interval, now, k);
    k
  }

  /** The due time with which it leaves. */
  ghost function Rescheduled(due: U64, interval: U64, now: U64): (next: U64)
    requires Ends(due, interval, now)
    ensures now < next
  {
    Wrapped(due, interval, Exit(due, interval, now))
  }

  lemma RescheduledAt(due: U64, interval: U64, now: U64, k: nat)
    requires LeavesAt(due, interval, now, k)
    ensures Ends(due, interval, now) && Exit(due, interval, now) == k
    ensures Rescheduled(due, interval, now) == Wrapped(due, interval, k)
  {
    hide Wrapped;
    OneExit(due, interval, now, Exit(due, interval, now), k);
  }

  lemma OneExit(due: U64, interval: U64, now: U64, j: nat, k: nat)
    requires LeavesAt(due, interval, now, j) && LeavesAt(due, interval, now, k)
    ensures j == k
  {
    hide Wrapped;
  }

  /** If some number of additions carries the due time past `now`, the loop leaves. */
  lemma {:induction false} SomeExit(due: U64, interval: U64, now: U64, k: nat)
    requires 1 <= k && now < Wrapped(due, interval, k)
    ensures Ends(due, interval, now)
  {
    if forall j: nat :: 1 <= j < k ==> Wrapped(due, interval, j) <= now {
      assert LeavesAt(due, interval, now, k);
    } else {
      var j: nat :| 1 <= j < k && now < Wrapped(due, interval, j);
      SomeExit(due, interval, now, j);
    }
  }

  /** A loop that is still running after 2^64 additions never leaves. */
  lemma {:induction false} NoExitLater(due: U64, interval: U64, now: U64, k: nat)
    requires forall j: nat :: 1 <= j <= TWO64 ==> Wrapped(due, interval, j) <= now
    requires 1 <= k
    ensures Wrapped(due, interval, k) <= now
  {
    if k > TWO64 {
      NoExitLater(due, interval, now, k - TWO64);
      FullCircle(due, interval, k - TWO64);
    }
  }

  /**
   The reschedule loop reaches the drift-free next slot exactly when that slot is
   representable in 64 bits.
   */
  lemma RescheduleExactIff(due: U64, interval: U64, now: U64)
    requires 0 < interval && due <= now
    ensures Ends(due, interval, now) && Rescheduled(due, interval, now) == NextSlot(due, interval, now)
       <==> NextSlot(due, interval, now) < TWO64
    ensures NextSlot(due, interval, now) < TWO64 ==> Slot(due, interval, Exit(due, interval, now)) == NextSlot(due, interval, now)
  {
    var last := (now - due) / interval + 1;
    if Slot(due, interval, last) < TWO64 {
      forall j: nat | 1 <= j <= last
        ensures Wrapped(due, interval, j) == Slot(due, interval, j)
        ensures j < last ==> Slot(due, interval, j) <= now
      {
        MulMonotone(j, last, interval);
        SmallMod(Slot(due, interval, j));
        SlotDueIff(due, interval, j, now);
      }
      assert LeavesAt(due, interval, now, last);
      RescheduledAt(due, interval, now, last);
    }
  }

  /**
   The do-while loop that moves a repeating timer past the current time.  Where the
   code would spin for ever, this one reports it after coming full circle.
   */
  method Reschedule(due: U64, interval: U64, now: U64) returns (ended: bool, next: U64)
    ensures ended <==> Ends(due, interval, now)
    ensures ended ==> next == Rescheduled(due, interval, now)
  {
    hide Wrapped;
    WrappedStep(due, interval, 0);
    assert Wrapped(due, interval, 0) == due by { NoTurns(due, interval); }
    next := (due + interval) % TWO64;
    var turns := 1;
    while next <= now
      invariant 1 <= turns <= TWO64 && next == Wrapped(due, interval, turns)
      invariant forall j: nat :: 1 <= j < turns ==> Wrapped(due, interval, j) <= now
      decreases TWO64 - turns
    {
      if turns == TWO64 {
        forall k: nat | 1 <= k
          ensures Wrapped(due, interval, k) <= now
        {
          NoExitLater(due, interval, now, k);
        }
        return false, next;
      }
      WrappedStep(due, interval, turns);
      next := (next + interval) % TWO64;
      turns := turns + 1;
    }
    RescheduledAt(due, interval, now, turns);
    ended := true;
  }

  lemma NoTurns(due: U64, interval: U64)
    ensures Wrapped(due, interval, 0) == due
  {
    SmallMod(due);
  }

  // ------------------------------------------------------------ wait timeouts

  /** Rounds a distance in nanoseconds up to milliseconds, clamped to INT_MAX. */
  function RoundUpMs(delta: nat): (ms: nat)
    ensures ms <= INT_MAX
  {
    var whole := (delta + 999_999) % TWO64 / NS_PER_MS;
    if whole > INT_MAX then INT_MAX else whole
  }

  /**
   `ms` is the right timeout for a distance: the least number of milliseconds
   that covers it, or INT_MAX when that many are not enough.
   */
  predicate RightTimeout(delta: nat, ms: nat) {
    if delta <= INT_MAX * NS_PER_MS
    then delta <= ms * NS_PER_MS < delta + NS_PER_MS
    else ms == INT_MAX
  }

  /** Rounding is right exactly when adding 999999 does not wrap. */
  lemma RoundUpRightIff(delta: U64)
    ensures RightTimeout(delta, RoundUpMs(delta)) <==> delta + 999_999 < TWO64
    ensures delta + 999_999 >= TWO64 ==> RoundUpMs(delta) == 0
  {
    if delta + 999_999 >= TWO64 {
      DivisionIsUnique(delta + 999_999, TWO64, 1, delta + 999_999 - TWO64);
    }
  }
}
