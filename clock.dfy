/** The visible multiplier's growth on each tick of the round interval (App.tsx). */
module Clock {

  /** Milliseconds between ticks; wall-clock time itself is not modelled. */
  const TICK_RATE := 50

  /** Growth per tick, tiered by the current value: 1.2% below 2x, 2% below 5x, 4% above. */
  function GrowthRate(prev: real): (rate: real)
    ensures 0.012 <= rate <= 0.04
  {
    if prev < 2.0 then 0.012 else if prev < 5.0 then 0.02 else 0.04
  }

  /** A higher multiplier never grows at a lower rate. */
  lemma GrowthRateMonotone(a: real, b: real)
    requires a <= b
    ensures GrowthRate(a) <= GrowthRate(b)
  {
  }

  /** The multiplier after one tick. It strictly increases, by at least 0.012
      once it is at 1.0 or above, and by at most 4%. */
  function Advance(prev: real): (next: real)
    ensures prev > 0.0 ==> prev < next <= prev * 1.04
    ensures prev >= 1.0 ==> next >= prev + 0.012
  {
    prev + prev * GrowthRate(prev)
  }

  /** Advancing preserves order: a higher multiplier stays higher after a tick. */
  lemma AdvanceMonotone(a: real, b: real)
    requires 0.0 <= a <= b
    ensures Advance(a) <= Advance(b)
  {
  }
}
