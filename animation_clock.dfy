/** The per-frame animation clock: time of day wraps around the span [MinTime, MaxTime),
    the wave-animation time accumulates, and the vertical-bounce-wave phase wraps modulo 1.
    Floats are modelled as reals, so only the range and wrap behaviour is claimed. */
module AnimationClock {
  import opened Validation

  /** MIN_TIME and MAX_TIME of the time-of-day slider, in hours. */
  const MinTime: real := 7.0
  const MaxTime: real := 17.0

  /** The number of whole periods y that fit below x (floor of x / y). */
  function Periods(x: real, y: real): (k: int)
    requires y > 0.0
    ensures k as real * y <= x < k as real * y + y
  {
    FloorScaled(x, y);
    (x / y).Floor
  }

  lemma FloorScaled(x: real, y: real)
    requires y > 0.0
    ensures (x / y).Floor as real * y <= x < (x / y).Floor as real * y + y
  {
    ScaleBounds(x / y, x, y, (x / y).Floor as real);
  }

  /** Multiplying k <= q < k + 1 by a positive y. */
  lemma ScaleBounds(q: real, x: real, y: real, k: real)
    requires y > 0.0 && x == q * y && k <= q < k + 1.0
    ensures k * y <= x < k * y + y
  {
    assert k * y <= q * y;
    var d := q - k;
    assert x == k * y + d * y;
    assert d * y < y;
  }

  /** glm::mod(x, y) = x - y * floor(x / y): the representative of x modulo y in [0, y). */
  function Mod(x: real, y: real): (r: real)
    requires y > 0.0
    ensures 0.0 <= r < y
    ensures 0.0 <= x < y ==> r == x
  {
    var k := Periods(x, y);
    if 0.0 <= x < y then
      NoWholePeriod(x, y, k);
      x - y * k as real
    else
      x - y * k as real
  }

  /** A product with a positive factor is positive only if the other factor is. */
  lemma PositiveFactor(a: real, y: real)
    requires y > 0.0 && a * y > 0.0
    ensures a > 0.0
  {
  }

  lemma NoWholePeriod(x: real, y: real, k: int)
    requires y > 0.0 && 0.0 <= x < y
    requires k as real * y <= x < k as real * y + y
    ensures k == 0
  {
    assert (1.0 - k as real) * y > 0.0;
    PositiveFactor(1.0 - k as real, y);
    assert (k as real + 1.0) * y > 0.0;
    PositiveFactor(k as real + 1.0, y);
  }

  /** a and b differ by a whole number of periods m. */
  ghost predicate SameModulo(a: real, b: real, m: real)
    requires m > 0.0
  {
    ((a - b) / m).Floor as real == (a - b) / m
  }

  /** A difference of k whole periods is a whole number of periods. */
  lemma WholePeriods(a: real, b: real, y: real, k: int)
    requires y > 0.0 && a - b == k as real * y
    ensures SameModulo(a, b, y)
  {
    assert (a - b) / y == k as real;
  }

  /** Mod only removes whole periods. */
  lemma ModSameModulo(x: real, y: real)
    requires y > 0.0
    ensures SameModulo(x, Mod(x, y), y)
  {
    var k := Periods(x, y);
    assert x - Mod(x, y) == k as real * y;
    assert (x - Mod(x, y)) / y == k as real;
  }

  /** Two values of [0, y) that differ by whole periods are equal: Mod picks the one representative. */
  lemma RepresentativeUnique(a: real, b: real, y: real)
    requires y > 0.0 && 0.0 <= a < y && 0.0 <= b < y
    requires SameModulo(a, b, y)
    ensures a == b
  {
    var n := ((a - b) / y).Floor;
    assert (a - b) == n as real * y;
    var below, above := 1.0 - n as real, n as real + 1.0;
    assert below * y == y - (a - b) > 0.0;
    PositiveFactor(below, y);
    assert above * y == (a - b) + y > 0.0;
    PositiveFactor(above, y);
  }

  /** One frame of the time-of-day animation (the tick of buildUI): while animating at a positive
      speed (seconds per hour) the clock advances by dt / speed hours and re-enters [MinTime, MaxTime)
      by wrapping around the span; otherwise it stays where it is. */
  function AdvanceTimeOfDay(hours: real, animating: bool, speed: real, dt: real): (r: real)
    ensures animating && speed > 0.0 ==> MinTime <= r < MaxTime
    ensures !(animating && speed > 0.0) ==> r == hours
    ensures animating && speed > 0.0 && MinTime <= hours + (1.0 / speed) * dt < MaxTime
            ==> r == hours + (1.0 / speed) * dt
  {
    if animating && speed > 0.0 then
      var advanced := hours + (1.0 / speed) * dt;
      MinTime + Mod(advanced - MinTime, MaxTime - MinTime)
    else
      hours
  }

  /** The wrap of the time of day continues from MinTime plus the overshoot: the result is the only
      time of [MinTime, MaxTime) that differs from the unwrapped time by whole spans. */
  lemma TimeOfDayWrapUnique(hours: real, speed: real, dt: real, t: real)
    requires speed > 0.0
    requires MinTime <= t < MaxTime
    requires SameModulo(hours + (1.0 / speed) * dt, t, MaxTime - MinTime)
    ensures t == AdvanceTimeOfDay(hours, true, speed, dt)
  {
    var span := MaxTime - MinTime;
    var shifted := hours + (1.0 / speed) * dt - MinTime;
    var r := AdvanceTimeOfDay(hours, true, speed, dt);
    ModSameModulo(shifted, span);
    assert r - MinTime == Mod(shifted, span);
    var m := ((shifted - Mod(shifted, span)) / span).Floor;
    var n := ((shifted + MinTime - t) / span).Floor;
    assert shifted - Mod(shifted, span) == m as real * span;
    assert shifted + MinTime - t == n as real * span;
    assert (t - MinTime) - Mod(shifted, span) == (m - n) as real * span;
    WholePeriods(t - MinTime, Mod(shifted, span), span, m - n);
    RepresentativeUnique(t - MinTime, Mod(shifted, span), span);
  }

  /** One frame of the wave animation: the wave time grows by dt, with the guard that resets a
      negative result to exactly 0. */
  function AdvanceWaveTime(seconds: real, animating: bool, dt: real): (r: real)
    ensures animating ==> r >= 0.0
    ensures !animating ==> r == seconds
    ensures animating && seconds + dt >= 0.0 ==> r == seconds + dt
    ensures animating && seconds + dt < 0.0 ==> r == 0.0
  {
    if animating then
      var advanced := seconds + dt;
      if advanced < 0.0 then 0.0 else advanced
    else
      seconds
  }

  /** One frame of the vertical-bounce-wave phase: while the waves animate and the period is
      positive, the phase advances by dt / period and wraps into [0, 1). */
  function AdvanceBouncePhase(phase: real, animating: bool, period: real, dt: real): (r: real)
    ensures animating && period > 0.0 ==> 0.0 <= r < 1.0
    ensures !(animating && period > 0.0) ==> r == phase
    ensures animating && period > 0.0 && 0.0 <= phase + (1.0 / period) * dt < 1.0
            ==> r == phase + (1.0 / period) * dt
  {
    if animating && period > 0.0 then
      Mod(phase + (1.0 / period) * dt, 1.0)
    else
      phase
  }

  /** The phase wrap keeps the fractional part: the result is the only phase of [0, 1) that differs
      from the unwrapped phase by a whole number of cycles. */
  lemma BouncePhaseWrapUnique(phase: real, period: real, dt: real, p: real)
    requires period > 0.0
    requires 0.0 <= p < 1.0
    requires SameModulo(phase + (1.0 / period) * dt, p, 1.0)
    ensures p == AdvanceBouncePhase(phase, true, period, dt)
  {
    var advanced := phase + (1.0 / period) * dt;
    ModSameModulo(advanced, 1.0);
    var m := (advanced - Mod(advanced, 1.0)).Floor;
    var n := (advanced - p).Floor;
    assert p - Mod(advanced, 1.0) == (m - n) as real;
    RepresentativeUnique(p, Mod(advanced, 1.0), 1.0);
  }

  /** The two wrap-around cases worked out: 16.9 h advanced by 0.2 h gives 7.1 h, and a phase of
      0.95 advanced by 0.1 gives 0.05. */
  lemma WrapExamples()
    ensures AdvanceTimeOfDay(16.9, true, 1.0, 0.2) == 7.1
    ensures AdvanceBouncePhase(0.95, true, 1.0, 0.1) == 0.05
  {
    assert Mod(17.1 - MinTime, 10.0) == 0.1 by {
      FloorScaled(10.1, 10.0);
      assert (10.1 / 10.0).Floor == 1;
    }
    assert Mod(1.05, 1.0) == 0.05 by {
      assert (1.05 / 1.0).Floor == 1;
    }
  }

  /** Time of day in [MinTime, MaxTime], a non-negative wave time and a phase in [0, 1]: the ranges
      the settings panel and the frame ticks maintain. */
  predicate ClockInRange(hours: real, waveSeconds: real, phase: real) {
    MinTime <= hours <= MaxTime && waveSeconds >= 0.0 && 0.0 <= phase <= 1.0
  }

  /** A frame tick keeps the clock in range, whatever the frame delta, speed or period. */
  lemma TickKeepsClockInRange(hours: real, waveSeconds: real, phase: real,
                              animatingTime: bool, speed: real,
                              animatingWaves: bool, period: real, dt: real)
    requires ClockInRange(hours, waveSeconds, phase)
    ensures ClockInRange(AdvanceTimeOfDay(hours, animatingTime, speed, dt),
                         AdvanceWaveTime(waveSeconds, animatingWaves, dt),
                         AdvanceBouncePhase(phase, animatingWaves, period, dt))
  {
  }

  /** The slider rules keep the clock in range, whatever value the widget wrote. */
  lemma SlidersKeepClockInRange(hours: real, waveSeconds: real, phase: real)
    ensures ClockInRange(Clamp(hours, MinTime, MaxTime), ForceNonNegative(waveSeconds), Clamp(phase, 0.0, 1.0))
  {
  }
}
