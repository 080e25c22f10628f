/** The PID loop with back-calculated anti-windup, over the reals. */
module Pid {

  datatype Loop = Loop(
    setpoint: real, kp: real, ki: real, kd: real, min: real, max: real, dt: real,
    integral: real, prevError: real)

  function Error(p: Loop, measurement: real): real {
    p.setpoint - measurement
  }

  function Raw(p: Loop, measurement: real): real
    requires p.dt != 0.0
  {
    var e := Error(p, measurement);
    p.kp * e + p.ki * (p.integral + e * p.dt) + p.kd * ((e - p.prevError) / p.dt)
  }

  function Clamped(p: Loop, x: real): real {
    if x > p.max then p.max else if x < p.min then p.min else x
  }

  /** The loop after a sample, and its output. */
  function Compute(p: Loop, measurement: real): (Loop, real)
    requires p.dt != 0.0
  {
    var e, raw := Error(p, measurement), Raw(p, measurement);
    var out := Clamped(p, raw);
    var backed := if out == raw || p.ki == 0.0 then 0.0 else (raw - out) / p.ki;
    (p.(integral := p.integral + e * p.dt - backed, prevError := e), out)
  }

  function Reset(p: Loop, hold: real): Loop {
    p.(integral := if p.ki == 0.0 then 0.0 else hold / p.ki, prevError := 0.0)
  }

  class PIDController {
    const setpoint: real
    var kp: real
    const ki: real
    const kd: real
    const min: real
    const max: real
    const dt: real
    var integral: real
    var prevError: real

    constructor (setpoint: real, kp: real := 1.0, ki: real := 0.0, kd: real := 0.0, min: real := 0.0, max: real := 100.0, dt: real := 1.0)
      ensures View() == Loop(setpoint, kp, ki, kd, min, max, dt, 0.0, 0.0)
    {
      this.setpoint, this.kp, this.ki, this.kd := setpoint, kp, ki, kd;
      this.min, this.max, this.dt := min, max, dt;
      integral, prevError := 0.0, 0.0;
    }

    function View(): Loop
      reads this
    {
      Loop(setpoint, kp, ki, kd, min, max, dt, integral, prevError)
    }

    method ComputeOutput(measurement: real) returns (output: real)
      requires dt != 0.0
      modifies this
      ensures (View(), output) == Compute(old(View()), measurement)
    {
      var error := setpoint - measurement;
      integral := integral + error * dt;
      var derivative := (error - prevError) / dt;
      prevError := error;
      output := kp * error + ki * integral + kd * derivative;
      assert output == Raw(old(View()), measurement);
      if output > max {
        integral := integral - if ki != 0.0 then (output - max) / ki else 0.0;
        output := max;
      } else if output < min {
        integral := integral - if ki != 0.0 then (output - min) / ki else 0.0;
        output := min;
      }
    }

    method ResetTo(hold: real)
      modifies this
      ensures View() == Reset(old(View()), hold)
    {
      integral := if ki != 0.0 then hold / ki else 0.0;
      prevError := 0.0;
    }
  }

  // ---- anti-windup --------------------------------------------------------------------------------

  /** The three terms of the loop as they stand after a sample. */
  function Terms(before: Loop, after: Loop): real
    requires before.dt != 0.0
  {
    after.kp * after.prevError + after.ki * after.integral + after.kd * ((after.prevError - before.prevError) / before.dt)
  }

  lemma {:induction false} BackedOff(ki: real, integral: real, excess: real)
    requires ki != 0.0
    ensures ki * (integral - excess / ki) == ki * integral - excess
  {
    var q := excess / ki;
    assert q * ki == excess;
  }

  /** The output is in range; and the stored integral accounts for it exactly, so that the terms sum
      to the output, if and only if the loop has an integral gain or did not saturate. */
  lemma {:induction false} IntegralAccountsForOutput(p: Loop, measurement: real)
    requires p.dt != 0.0 && p.min <= p.max
    ensures var (after, out) := Compute(p, measurement);
            && p.min <= out <= p.max
            && (Terms(p, after) == out <==> p.ki != 0.0 || p.min <= Raw(p, measurement) <= p.max)
  {
    var e, raw := Error(p, measurement), Raw(p, measurement);
    var out := Clamped(p, raw);
    var i := p.integral + e * p.dt;
    if p.ki != 0.0 && out != raw {
      BackedOff(p.ki, i, raw - out);
    }
  }

  function Abs(x: real): real {
    if x < 0.0 then -x else x
  }

  function Larger(x: real, y: real): real {
    if x > y then x else y
  }

  /** The loop's states over a run of samples. */
  predicate IsRun(trace: seq<Loop>, measurements: seq<real>) {
    && |trace| == |measurements| + 1
    && (forall k :: 0 <= k < |trace| ==> trace[k].dt != 0.0)
    && forall k {:trigger Compute(trace[k], measurements[k])} :: 0 <= k < |measurements| ==>
         trace[k + 1] == Compute(trace[k], measurements[k]).0
  }

  lemma {:induction false} AbsScaled(k: real, x: real, bound: real)
    requires Abs(x) <= bound
    ensures Abs(k * x) <= Abs(k) * bound
  {
    var a := Abs(k);
    assert a * (bound - x) >= 0.0 && a * (bound + x) >= 0.0;
    assert a * x <= a * bound && -(a * x) <= a * bound;
    assert k * x == a * x || k * x == -(a * x);
  }

  lemma {:induction false} SlopeWithin(e: real, before: real, slope: real, dt: real, bound: real, steepest: real)
    requires dt > 0.0 && Abs(e) <= bound && Abs(before) <= bound
    requires slope * dt == e - before && steepest * dt == 2.0 * bound
    ensures Abs(slope) <= steepest
  {
    assert (steepest - slope) * dt >= 0.0 && (steepest + slope) * dt >= 0.0;
    NonNegative(steepest - slope, dt);
    NonNegative(steepest + slope, dt);
  }

  lemma {:induction false} NonNegative(x: real, dt: real)
    requires dt > 0.0 && x * dt >= 0.0
    ensures x >= 0.0
  {
  }

  function PTerm(kp: real, e: real): real {
    kp * e
  }

  function DTerm(kd: real, dt: real, e: real, prev: real): real
    requires dt != 0.0
  {
    kd * ((e - prev) / dt)
  }

  function ITerm(p: Loop): real {
    p.ki * p.integral
  }

  /** Under errors within `bound` the proportional and derivative terms together stay within `reach`. */
  ghost predicate OthersWithin(p: Loop, bound: real, reach: real)
    requires p.dt != 0.0
  {
    forall e, prev {:trigger DTerm(p.kd, p.dt, e, prev)} ::
      Abs(e) <= bound && Abs(prev) <= bound ==> Abs(PTerm(p.kp, e)) + Abs(DTerm(p.kd, p.dt, e, prev)) <= reach
  }

  /** They do for |Kp| * bound + |Kd| * steepest, where steepest is 2 * bound / dt. */
  lemma {:induction false} OthersReach(p: Loop, bound: real, steepest: real)
    requires p.dt > 0.0 && steepest * p.dt == 2.0 * bound
    ensures OthersWithin(p, bound, Abs(p.kp) * bound + Abs(p.kd) * steepest)
  {
    var pReach, dReach := Abs(p.kp) * bound, Abs(p.kd) * steepest;
    forall e, prev | Abs(e) <= bound && Abs(prev) <= bound
      ensures Abs(PTerm(p.kp, e)) <= pReach && Abs(DTerm(p.kd, p.dt, e, prev)) <= dReach
    {
      AbsScaled(p.kp, e, bound);
      DTermWithin(p.kd, p.dt, e, prev, bound, steepest);
    }
    SumWithin(p, bound, pReach, dReach);
  }

  lemma {:induction false} SumWithin(p: Loop, bound: real, pReach: real, dReach: real)
    requires p.dt != 0.0
    requires forall e, prev {:trigger DTerm(p.kd, p.dt, e, prev)} :: Abs(e) <= bound && Abs(prev) <= bound ==>
               Abs(PTerm(p.kp, e)) <= pReach && Abs(DTerm(p.kd, p.dt, e, prev)) <= dReach
    ensures OthersWithin(p, bound, pReach + dReach)
  {
  }

  lemma {:induction false} DTermWithin(kd: real, dt: real, e: real, prev: real, bound: real, steepest: real)
    requires dt > 0.0 && Abs(e) <= bound && Abs(prev) <= bound && steepest * dt == 2.0 * bound
    ensures Abs(DTerm(kd, dt, e, prev)) <= Abs(kd) * steepest
  {
    var slope := (e - prev) / dt;
    SlopeWithin(e, prev, slope, dt, bound, steepest);
    AbsScaled(kd, slope, steepest);
  }

  /** No windup: at every point of any run with errors within `bound` the integral term stays within
      the output range plus what the other two terms can be. */
  lemma {:induction false} IntegralIsBounded(trace: seq<Loop>, measurements: seq<real>, k: nat, bound: real, reach: real)
    requires IsRun(trace, measurements) && 0 < k < |trace|
    requires var p := trace[0];
             && p.ki != 0.0 && p.min <= p.max && Abs(p.prevError) <= bound && OthersWithin(p, bound, reach)
             && forall j :: 0 <= j < |measurements| ==> Abs(p.setpoint - measurements[j]) <= bound
    ensures Abs(ITerm(trace[k])) <= Larger(Abs(trace[0].min), Abs(trace[0].max)) + reach
  {
    RunErrors(trace, measurements, k - 1, bound);
    assert trace[k - 1 + 1] == Compute(trace[k - 1], measurements[k - 1]).0;
    assert OthersWithin(trace[k - 1], bound, reach);
    ITermBounded(trace[k - 1], measurements[k - 1], bound, reach);
  }

  lemma {:induction false} ITermBounded(p: Loop, m: real, bound: real, reach: real)
    requires p.dt != 0.0 && p.ki != 0.0 && p.min <= p.max
    requires Abs(p.prevError) <= bound && Abs(Error(p, m)) <= bound && OthersWithin(p, bound, reach)
    ensures Abs(ITerm(Compute(p, m).0)) <= Larger(Abs(p.min), Abs(p.max)) + reach
  {
    var a, i, d := TermsSum(p, m);
    assert Abs(PTerm(p.kp, Error(p, m))) + Abs(DTerm(p.kd, p.dt, Error(p, m), p.prevError)) <= reach;
  }

  lemma {:induction false} TermsSum(p: Loop, m: real) returns (a: real, i: real, d: real)
    requires p.dt != 0.0 && p.ki != 0.0 && p.min <= p.max
    ensures a == PTerm(p.kp, Error(p, m)) && i == ITerm(Compute(p, m).0)
    ensures d == DTerm(p.kd, p.dt, Error(p, m), p.prevError) && p.min <= a + i + d <= p.max
  {
    IntegralAccountsForOutput(p, m);
    a, i, d := PTerm(p.kp, Error(p, m)), ITerm(Compute(p, m).0), DTerm(p.kd, p.dt, Error(p, m), p.prevError);
  }

  /** The tuning never changes, and errors within the bound stay so. */
  lemma {:induction false} RunErrors(trace: seq<Loop>, measurements: seq<real>, k: nat, bound: real)
    requires IsRun(trace, measurements) && k < |trace| && Abs(trace[0].prevError) <= bound
    requires forall j :: 0 <= j < |measurements| ==> Abs(trace[0].setpoint - measurements[j]) <= bound
    ensures trace[k] == trace[0].(integral := trace[k].integral, prevError := trace[k].prevError)
    ensures Abs(trace[k].prevError) <= bound
    decreases k
  {
    if k > 0 {
      RunErrors(trace, measurements, k - 1, bound);
      assert trace[k - 1 + 1] == Compute(trace[k - 1], measurements[k - 1]).0;
    }
  }

  // ---- holding an output ----------------------------------------------------------------------------

  /** At setpoint the loop repeats the output its integral stands for. */
  predicate Holds(p: Loop, hold: real) {
    p.prevError == 0.0 && p.ki * p.integral == hold && p.min <= hold <= p.max
  }

  lemma {:induction false} HoldsOn(p: Loop, hold: real)
    requires p.dt != 0.0 && Holds(p, hold)
    ensures Compute(p, p.setpoint) == (p, hold)
  {
  }

  /** A reset is bumpless: a loop with an integral gain and `hold` within its range gives `hold` at
      setpoint right after a reset to it; without one it gives the clamped zero. */
  lemma {:induction false} ResetIsBumpless(p: Loop, hold: real)
    requires p.dt != 0.0
    ensures p.ki != 0.0 && p.min <= hold <= p.max ==> Holds(Reset(p, hold), hold)
    ensures Compute(Reset(p, hold), p.setpoint).1 == Clamped(p, if p.ki != 0.0 then hold else 0.0)
  {
    if p.ki != 0.0 {
      var i := hold / p.ki;
      assert p.ki * i == hold;
    }
  }

  // ---- the direction of control -----------------------------------------------------------------------

  lemma {:induction false} Scaled(k: real, x: real, y: real)
    requires k >= 0.0 && x >= y
    ensures k * x >= k * y
    ensures k > 0.0 && x > y ==> k * x > k * y
  {
    assert k * x - k * y == k * (x - y);
  }

  lemma {:induction false} Divided(x: real, y: real, dt: real)
    requires dt > 0.0 && x >= y
    ensures x / dt >= y / dt
  {
    var q, r := x / dt, y / dt;
    assert q * dt == x && r * dt == y;
    if q < r {
      Scaled(dt, r, q);
    }
  }

  lemma {:induction false} RawFalls(p: Loop, a: real, b: real)
    requires p.dt > 0.0 && p.kp >= 0.0 && p.ki >= 0.0 && p.kd >= 0.0 && a <= b
    ensures Raw(p, a) >= Raw(p, b)
    ensures p.kp > 0.0 && a < b ==> Raw(p, a) > Raw(p, b)
  {
    var e, f := Error(p, a), Error(p, b);
    Scaled(p.kp, e, f);
    Scaled(p.dt, e, f);
    Scaled(p.ki, p.integral + e * p.dt, p.integral + f * p.dt);
    Divided(e - p.prevError, f - p.prevError, p.dt);
    Scaled(p.kd, (e - p.prevError) / p.dt, (f - p.prevError) / p.dt);
  }

  /** Control acts against the measurement: with gains that are not negative a lower measurement never
      gives a lower output, and with a proportional gain it gives a higher one unless an end of the
      range is reached; in particular a measurement below the setpoint against one at it. */
  lemma {:induction false} OutputFalls(p: Loop, a: real, b: real)
    requires p.dt > 0.0 && p.kp >= 0.0 && p.ki >= 0.0 && p.kd >= 0.0 && p.min <= p.max && a <= b
    ensures var high, low := Compute(p, a).1, Compute(p, b).1;
            && high >= low
            && (p.kp > 0.0 && a < b ==> high > low || high == low == p.max || high == low == p.min)
  {
    RawFalls(p, a, b);
  }

  /** The sum of the errors. */
  function Errors(setpoint: real, measurements: seq<real>): real {
    if measurements == [] then 0.0
    else Errors(setpoint, measurements[..|measurements| - 1]) + (setpoint - measurements[|measurements| - 1])
  }

  lemma {:induction false} IntegralStep(p: Loop, m: real)
    requires p.dt != 0.0 && Compute(p, m).1 == Raw(p, m)
    ensures var q := Compute(p, m).0;
            q.integral == p.integral + (p.setpoint - m) * p.dt && q.setpoint == p.setpoint && q.dt == p.dt
  {
  }

  /** While the output is not clamped the integral is the sum of the errors times dt. */
  lemma {:induction false} IntegralSums(trace: seq<Loop>, measurements: seq<real>, n: nat)
    requires IsRun(trace, measurements) && n <= |measurements|
    requires forall k {:trigger Compute(trace[k], measurements[k])} :: 0 <= k < |measurements| ==>
               Compute(trace[k], measurements[k]).1 == Raw(trace[k], measurements[k])
    ensures trace[n].integral == trace[0].integral + trace[0].dt * Errors(trace[0].setpoint, measurements[..n])
    ensures trace[n].setpoint == trace[0].setpoint && trace[n].dt == trace[0].dt
    decreases n
  {
    if n > 0 {
      IntegralSums(trace, measurements, n - 1);
      assert measurements[..n][..n - 1] == measurements[..n - 1];
      assert trace[n - 1 + 1] == Compute(trace[n - 1], measurements[n - 1]).0;
      IntegralStep(trace[n - 1], measurements[n - 1]);
      Distributes(trace[0].dt, Errors(trace[0].setpoint, measurements[..n - 1]), trace[0].setpoint - measurements[n - 1]);
    }
  }

  lemma {:induction false} Distributes(k: real, x: real, y: real)
    ensures k * (x + y) == k * x + y * k
  {
  }
}
