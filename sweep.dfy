/** Sweep-configuration arithmetic shared by the two IV controllers
    (kiv/Keithley_IV.py): step count, estimated runtime, device timeout, and
    the 6517B rule that makes the step's sign follow the sweep direction. */
module Sweep {
  import opened Wrappers

  /** Frequency used to turn power-line cycles into seconds (the `nplc/50`). */
  const LineFrequency: real := 50.0

  function Abs(x: real): (r: real)
    ensures r >= 0.0 && (r == x || r == -x)
  {
    if x < 0.0 then -x else x
  }

  /** Python's `int(x)` on a float: truncation toward zero. */
  function Trunc(x: real): (r: int)
    ensures Abs(r as real) <= Abs(x) < Abs(r as real) + 1.0
    ensures (x >= 0.0 ==> r >= 0) && (x <= 0.0 ==> r <= 0)
  {
    if x >= 0.0 then x.Floor else -((-x).Floor)
  }

  lemma AbsQuotient(a: real, b: real)
    requires b != 0.0
    ensures Abs(a / b) == Abs(a) / Abs(b)
  {
    if b < 0.0 {
      assert a / b == (-a) / (-b);
    }
  }

  /** `int(abs((stop - start) / stepsize) + 1)`: the number of sweep points.
      A zero step raises ZeroDivisionError in the source, hence the requires. */
  function StepCount(start: real, stop: real, stepsize: real): (n: nat)
    requires stepsize != 0.0
    ensures n >= 1
    ensures (n - 1) as real <= Abs(stop - start) / Abs(stepsize) < n as real
  {
    AbsQuotient(stop - start, stepsize);
    Trunc(Abs((stop - start) / stepsize) + 1.0)
  }

  /** The worked scenario: 0 V to 1 V in 0.1 V steps is eleven points. */
  lemma StepCountOfTenthVoltSweep()
    ensures StepCount(0.0, 1.0, 0.1) == 11
  {
    assert Abs((1.0 - 0.0) / 0.1) + 1.0 == 11.0;
  }

  /** The point k steps of |stepsize| away from start is no further from
      start than stop is. */
  predicate PointWithinRange(start: real, stop: real, stepsize: real, k: nat)
  {
    k as real * Abs(stepsize) <= Abs(stop - start)
  }

  lemma QuotientTimes(d: real, s: real)
    requires s != 0.0
    ensures (d / s) * s == d
  {
  }

  lemma ScaleMonotone(a: real, b: real, s: real)
    requires s > 0.0
    ensures a <= b ==> a * s <= b * s
    ensures a < b ==> a * s < b * s
  {
  }

  /** k whole steps of length s fit into d exactly when k < n, for n - 1
      the whole part of d / s. */
  lemma StepsFit(d: real, s: real, k: nat, n: int)
    requires s > 0.0 && (n - 1) as real <= d / s < n as real
    ensures k as real * s <= d <==> k < n
  {
    var q := d / s;
    QuotientTimes(d, s);
    if k < n {
      ScaleMonotone(k as real, q, s);
    } else {
      ScaleMonotone(q, k as real, s);
    }
  }

  /** The k-th sweep point (k steps of |stepsize| away from start) stays
      within |stop - start| exactly when k is below the step count: the
      count is the number of grid points in the closed sweep range. */
  lemma SweepPointsInRange(start: real, stop: real, stepsize: real, k: nat)
    requires stepsize != 0.0
    ensures PointWithinRange(start, stop, stepsize, k) <==> k < StepCount(start, stop, stepsize)
  {
    StepsFit(Abs(stop - start), Abs(stepsize), k, StepCount(start, stop, stepsize));
  }

  /** The step count depends only on the step's magnitude. */
  lemma StepCountIgnoresSign(start: real, stop: real, stepsize: real, other: real)
    requires stepsize != 0.0 && Abs(other) == Abs(stepsize)
    ensures StepCount(start, stop, other) == StepCount(start, stop, stepsize)
  {
    var n, m := StepCount(start, stop, other), StepCount(start, stop, stepsize);
    var q := Abs(stop - start) / Abs(stepsize);
    assert (n - 1) as real <= q < n as real;
    assert (m - 1) as real <= q < m as real;
  }

  /** The `runtime` property: seconds for nsteps points of (delay + one
      integration period) plus a 5 s margin. */
  function RuntimeSeconds(nsteps: nat, delay: real, nplc: real): (t: real)
    ensures delay >= 0.0 && nplc >= 0.0 ==> t >= 5.0
  {
    nsteps as real * (delay + nplc / LineFrequency) + 5.0
  }

  /** The device read timeout in milliseconds set by `timeout()`. It is the
      estimated runtime in milliseconds plus five more seconds, so a read
      issued at the start of the sweep cannot time out before the sweep's
      estimated end. */
  function TimeoutMs(nsteps: nat, delay: real, nplc: real): (ms: real)
    ensures ms == 1000.0 * RuntimeSeconds(nsteps, delay, nplc) + 5000.0
    ensures ms > 1000.0 * RuntimeSeconds(nsteps, delay, nplc)
  {
    (nsteps as real * (delay + nplc / LineFrequency)) * 1000.0 + 10000.0
  }

  /** The 6517B if/elif chain on `stepsize`. None is the case where no
      branch assigns `self.stepsize` (start == stop, or a zero step); the
      source then fails later with an AttributeError or ZeroDivisionError. */
  function CorrectStep(start: real, stop: real, stepsize: real): (r: Option<real>)
    ensures r.Some? <==> start != stop && stepsize != 0.0
    ensures r.Some? ==> Abs(r.value) == Abs(stepsize)
    ensures r.Some? ==> (r.value < 0.0 <==> start > stop) && (r.value > 0.0 <==> start < stop)
  {
    if start > stop && stepsize > 0.0 then Some(-stepsize)
    else if start > stop && stepsize < 0.0 then Some(stepsize)
    else if start < stop && stepsize > 0.0 then Some(stepsize)
    else if start < stop && stepsize < 0.0 then Some(-stepsize)
    else None
  }

  /** Rising sweep: start + k*s stays in [start, stop] exactly when k steps fit. */
  lemma RisingWithin(start: real, stop: real, s: real, k: nat)
    requires start < stop && s > 0.0
    ensures start <= start + k as real * s <= stop <==> PointWithinRange(start, stop, s, k)
  {
    ScaleMonotone(0.0, k as real, s);
    assert Abs(s) == s && Abs(stop - start) == stop - start;
  }

  /** Falling sweep: start + k*s stays in [stop, start] exactly when k steps fit. */
  lemma FallingWithin(start: real, stop: real, s: real, k: nat)
    requires stop < start && s < 0.0
    ensures stop <= start + k as real * s <= start <==> PointWithinRange(start, stop, s, k)
  {
    ScaleMonotone(0.0, k as real, -s);
    assert Abs(s) == -s && Abs(stop - start) == start - stop;
    assert k as real * (-s) == -(k as real * s);
  }

  /** With the corrected step, the k-th programmed voltage start + k*step
      lies between start and stop exactly for the first StepCount points:
      the device sweeps towards stop and never beyond it. */
  lemma {:induction false} CorrectedSweepStaysInRange(start: real, stop: real, stepsize: real, k: nat)
    requires start != stop && stepsize != 0.0
    ensures var s := CorrectStep(start, stop, stepsize).value;
            var p := start + k as real * s;
            (if start < stop then start <= p <= stop else stop <= p <= start)
              <==> k < StepCount(start, stop, stepsize)
  {
    var s := CorrectStep(start, stop, stepsize).value;
    SweepPointsInRange(start, stop, stepsize, k);
    assert PointWithinRange(start, stop, s, k) <==> PointWithinRange(start, stop, stepsize, k);
    if start < stop {
      RisingWithin(start, stop, s, k);
    } else {
      FallingWithin(start, stop, s, k);
    }
  }
}
