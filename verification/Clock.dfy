/**
 Turning a performance counter into nanoseconds with 64-bit arithmetic, and the
 timers built on it.
 */
module Clock {
  import opened Limits
  import opened Timing

  const NS_PER_S: nat := 1_000_000_000

  /** The nanoseconds a counter stands for, rounded down. */
  function ExactNs(counter: nat, frequency: nat): nat
    requires 0 < frequency
  {
    counter * NS_PER_S / frequency
  }

  /** The nanoseconds in the whole seconds of a counter. */
  function Whole(counter: nat, frequency: nat): nat
    requires 0 < frequency
  {
    counter / frequency * NS_PER_S
  }

  /** The counts beyond the whole seconds, scaled up before the division. */
  function Scaled(counter: nat, frequency: nat): nat
    requires 0 < frequency
  {
    counter % frequency * NS_PER_S
  }

  /** Machine division of a product reduced to 64 bits. */
  function Part(product: nat, frequency: U64): nat
    requires 0 < frequency
  {
    product % TWO64 / frequency
  }

  /** The split form the code computes, with every product and the sum reduced to 64 bits. */
  function SplitNs(counter: U64, frequency: U64): (ns: U64)
    requires 0 < frequency
  {
    (Whole(counter, frequency) % TWO64 + Part(Scaled(counter, frequency), frequency)) % TWO64
  }

  /** The quotient by the frequency splits into whole seconds and the rest. */
  lemma SplitIsExact(counter: nat, frequency: nat)
    requires 0 < frequency
    ensures ExactNs(counter, frequency) == Whole(counter, frequency) + Scaled(counter, frequency) / frequency
  {
    var q, r := counter / frequency, counter % frequency;
    var rest := r * NS_PER_S;
    assert counter == q * frequency + r;
    assert counter * NS_PER_S == q * NS_PER_S * frequency + rest by {
      assert (q * frequency) * NS_PER_S == q * NS_PER_S * frequency;
    }
    assert rest == rest / frequency * frequency + rest % frequency;
    assert counter * NS_PER_S == (q * NS_PER_S + rest / frequency) * frequency + rest % frequency by {
      Distribute(q * NS_PER_S, rest / frequency, frequency);
    }
    DivisionIsUnique(counter * NS_PER_S, frequency, q * NS_PER_S + rest / frequency, rest % frequency);
  }

  lemma Distribute(a: nat, b: nat, c: nat)
    ensures (a + b) * c == a * c + b * c
  {
  }

  lemma DivMonotone(x: nat, y: nat, d: nat)
    requires 0 < d && x <= y
    ensures x / d <= y / d
  {
    var a, b := x / d, y / d;
    assert x == a * d + x % d && y == b * d + y % d;
    Distribute(b, 1, d);
    if b < a {
      MulMonotone(b + 1, a, d);
    }
  }

  lemma DivStep(x: nat, d: nat)
    requires 0 < d
    ensures (x + d) / d == x / d + 1
  {
    var q := x / d;
    assert x == q * d + x % d;
    Distribute(q, 1, d);
    DivisionIsUnique(x + d, d, q + 1, x % d);
  }

  /** The remainder's product fits 64 bits, and so does the result. */
  predicate Fits(counter: U64, frequency: U64)
    requires 0 < frequency
  {
    Scaled(counter, frequency) < TWO64 && ExactNs(counter, frequency) < TWO64
  }

  /** A remainder whose product overflows comes out too small, never right. */
  lemma OverflowLosesTime(x: nat, frequency: U64)
    requires 0 < frequency && TWO64 <= x
    ensures Part(x, frequency) < x / frequency
  {
    var low := x % TWO64;
    assert low + TWO64 <= x by { assert x == x / TWO64 * TWO64 + low; }
    DivMonotone(low + frequency, x, frequency);
    DivStep(low, frequency);
  }

  /** The code's conversion is exact precisely when nothing overflows. */
  lemma SplitNsExactIff(counter: U64, frequency: U64)
    requires 0 < frequency
    ensures SplitNs(counter, frequency) == ExactNs(counter, frequency) <==> Fits(counter, frequency)
  {
    hide ExactNs, Whole, Scaled, Part;
    SplitIsExact(counter, frequency);
    var product := Scaled(counter, frequency);
    if product < TWO64 {
      NoOverflow(product, frequency);
    } else {
      OverflowLosesTime(product, frequency);
    }
    WrapCases(Whole(counter, frequency), product / frequency, Part(product, frequency), product < TWO64);
  }

  lemma NoOverflow(x: U64, frequency: U64)
    requires 0 < frequency
    ensures Part(x, frequency) == x / frequency
  {
  }

  lemma WrapCases(whole: nat, part: nat, wrapped: nat, fits: bool)
    requires if fits then wrapped == part else wrapped < part
    ensures (whole % TWO64 + wrapped) % TWO64 == whole + part <==> fits && whole + part < TWO64
  {
  }

  /** The remainder's product always fits for frequencies up to about 18 GHz. */
  lemma LowFrequencyFits(counter: U64, frequency: U64)
    requires 0 < frequency && frequency * NS_PER_S <= TWO64 && ExactNs(counter, frequency) < TWO64
    ensures Fits(counter, frequency)
  {
    MulMonotone(counter % frequency + 1, frequency, NS_PER_S);
  }

  /** Later counters never stand for earlier times. */
  lemma ExactNsMonotone(a: nat, b: nat, frequency: nat)
    requires 0 < frequency && a <= b
    ensures ExactNs(a, frequency) <= ExactNs(b, frequency)
  {
    DivMonotone(a * NS_PER_S, b * NS_PER_S, frequency);
  }

  /** The difference of two conversions is the conversion of the difference, or one nanosecond more. */
  lemma ExactNsOfDifference(a: nat, b: nat, frequency: nat)
    requires 0 < frequency && a <= b
    ensures var d := ExactNs(b, frequency) - ExactNs(a, frequency);
            ExactNs(b - a, frequency) <= d <= ExactNs(b - a, frequency) + 1
  {
    var x, y := a * NS_PER_S, (b - a) * NS_PER_S;
    assert b * NS_PER_S == x + y;
    DivOfSum(x, y, frequency);
  }

  lemma DivOfSum(x: nat, y: nat, d: nat)
    requires 0 < d
    ensures x / d + y / d <= (x + y) / d <= x / d + y / d + 1
  {
    SumOfMultiples(x / d, y / d, x % d, y % d, d);
    var r := x % d + y % d;
    if r < d {
      DivisionIsUnique(x + y, d, x / d + y / d, r);
    } else {
      DivisionIsUnique(x + y, d, x / d + y / d + 1, r - d);
    }
  }

  lemma SumOfMultiples(p: nat, q: nat, r: nat, s: nat, d: nat)
    ensures (p * d + r) + (q * d + s) == (p + q) * d + (r + s)
    ensures (p + q + 1) * d == (p + q) * d + d
  {
    Distribute(p, q, d);
    Distribute(p + q, 1, d);
  }

  /** `x_timer_t`: remembers when it was started. */
  class ElapsedTimer {
    var startedNs: U64
    ghost var startedAt: U64

    method Start(counter: U64, frequency: U64)
      requires 0 < frequency
      modifies this
      ensures startedNs == SplitNs(counter, frequency) && startedAt == counter
    {
      startedNs := SplitNs(counter, frequency);
      startedAt := counter;
    }

    /** The elapsed time is that between the two counters, to the nanosecond, unless something overflows. */
    method ElapsedNs(counter: U64, frequency: U64) returns (ns: U64)
      requires 0 < frequency && startedNs == SplitNs(startedAt, frequency)
      ensures startedAt <= counter && Fits(startedAt, frequency) && Fits(counter, frequency) ==>
        && ns == ExactNs(counter, frequency) - ExactNs(startedAt, frequency)
        && ExactNs(counter - startedAt, frequency) <= ns <= ExactNs(counter - startedAt, frequency) + 1
      ensures SplitNs(counter, frequency) <= startedNs ==> ns == 0
    {
      hide SplitNs, ExactNs;
      var now := SplitNs(counter, frequency);
      ns := if now >= startedNs then now - startedNs else 0;
      if startedAt <= counter {
        SplitNsExactIff(startedAt, frequency);
        SplitNsExactIff(counter, frequency);
        ExactNsMonotone(startedAt, counter, frequency);
        ExactNsOfDifference(startedAt, counter, frequency);
      }
    }
  }
}
