/** The clock: unsigned 64-bit milliseconds, and deadlines computed in them. */
module Clock {
  const CLOCK_MODULUS: nat := 0x1_0000_0000_0000_0000

  type Time = x: nat | x < CLOCK_MODULUS

  /** Clock plus period, as the unsigned addition gives it. */
  function Deadline(start: nat, period: nat): (d: Time) {
    (start + period) % CLOCK_MODULUS
  }

  /** When a deadline is what was asked for: not before start + period, later than the start, at
      least the period - each unless the sum overflows 64 bits, and then it lies before the
      start. */
  lemma DeadlineExact(start: Time, period: Time)
    ensures start + period < CLOCK_MODULUS ==> Deadline(start, period) == start + period
    ensures Deadline(start, period) >= start + period <==> start + period < CLOCK_MODULUS
    ensures start < Deadline(start, period) <==> 0 < period && start + period < CLOCK_MODULUS
    ensures period <= Deadline(start, period) <==> start + period < CLOCK_MODULUS
    ensures CLOCK_MODULUS <= start + period ==> Deadline(start, period) < start
  {
    if CLOCK_MODULUS <= start + period {
      assert (start + period) % CLOCK_MODULUS == start + period - CLOCK_MODULUS;
    }
  }
}
