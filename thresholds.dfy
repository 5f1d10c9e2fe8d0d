/**
 * The three adjustable thresholds, the console's clamped +-10 steps on them,
 * the trigger conditions shared by each monitor thread and its controller
 * thread, and the controller's ON/OFF pulse.
 */
module Thresholds {
  import opened Board

  const THRESHOLD_STEP := 10

  // Reset values of the three threshold globals.
  const HEATER_THRESHOLD_AT_RESET := 1600
  const SPRINKLER_THRESHOLD_AT_RESET := 5000
  const LIGHT_THRESHOLD_AT_RESET := 4091

  // How long each controller keeps its actuator on: the osDelay argument, in milliseconds.
  const HEATER_ON_DURATION := 500
  const SPRINKLER_ON_DURATION := 600
  const LIGHT_ON_DURATION := 700

  predicate InAdcRange(v: int) {
    0 <= v <= ADC_MAX
  }

  /** Every value a threshold can reach from its reset value: [0, 5000]. */
  predicate Reachable(v: int) {
    0 <= v <= SPRINKLER_THRESHOLD_AT_RESET
  }

  /** Up: add 10, then cap at 4095. */
  function StepUp(v: int): (r: int)
    ensures r <= ADC_MAX
    ensures r >= v || r == ADC_MAX
    ensures v + THRESHOLD_STEP <= ADC_MAX ==> r == v + THRESHOLD_STEP
    ensures v + THRESHOLD_STEP > ADC_MAX ==> r == ADC_MAX
  {
    var w := v + THRESHOLD_STEP;
    if w > ADC_MAX then ADC_MAX else w
  }

  /** Down: subtract 10, then floor at 0. */
  function StepDown(v: int): (r: int)
    ensures r >= 0
    ensures r <= v || r == 0
    ensures v - THRESHOLD_STEP >= 0 ==> r == v - THRESHOLD_STEP
    ensures v - THRESHOLD_STEP < 0 ==> r == 0
  {
    var w := v - THRESHOLD_STEP;
    if w < 0 then 0 else w
  }

  /** A value inside the 12-bit range stays inside it under either step. */
  lemma StepsKeepAdcRange(v: int)
    requires InAdcRange(v)
    ensures InAdcRange(StepUp(v)) && InAdcRange(StepDown(v))
  {
  }

  /** Thresholds stay within [0, 5000], so the int arithmetic of the steps never overflows. */
  lemma StepsKeepReachable(v: int)
    requires Reachable(v)
    ensures Reachable(StepUp(v)) && Reachable(StepDown(v))
  {
  }

  /** `k` samples with a Down edge and no Up edge. */
  function StepDownTimes(v: int, k: nat): int
    decreases k
  {
    if k == 0 then v else StepDown(StepDownTimes(v, k - 1))
  }

  /** `k` Down steps from a non-negative value give max(v - 10k, 0). */
  lemma {:induction false} StepDownTimesValue(v: int, k: nat)
    requires v >= 0
    ensures StepDownTimes(v, k) == if v - THRESHOLD_STEP * k >= 0 then v - THRESHOLD_STEP * k else 0
  {
    if k > 0 {
      StepDownTimesValue(v, k - 1);
    }
  }

  /**
   * The sprinkler threshold starts out of range at 5000; Down alone needs 91
   * accepted steps (5000 - 910 = 4090) before it is a 12-bit value.
   */
  lemma SprinklerResetNeedsNinetyOneDowns(k: nat)
    ensures InAdcRange(StepDownTimes(SPRINKLER_THRESHOLD_AT_RESET, k)) <==> k >= 91
  {
    StepDownTimesValue(SPRINKLER_THRESHOLD_AT_RESET, k);
  }

  /** One Up step from the sprinkler's reset value lands on 4095. */
  lemma SprinklerResetUpCaps()
    ensures !InAdcRange(SPRINKLER_THRESHOLD_AT_RESET)
    ensures StepDown(SPRINKLER_THRESHOLD_AT_RESET) == 4990
    ensures StepUp(SPRINKLER_THRESHOLD_AT_RESET) == ADC_MAX
  {
  }

  /** Up and Down in the same sample: Up applies first, so the cap is not undone near the top. */
  lemma UpThenDown(v: int)
    requires InAdcRange(v)
    ensures StepDown(StepUp(v)) == if v <= ADC_MAX - THRESHOLD_STEP then v else ADC_MAX - THRESHOLD_STEP
  {
  }

  /** The three threshold globals, indexed by the actuator each one drives. */
  datatype Limits = Limits(heater: int, sprinkler: int, light: int) {

    function Get(a: Actuator): int {
      match a
      case Heater => heater
      case Sprinkler => sprinkler
      case Light => light
    }

    function Set(a: Actuator, v: int): (r: Limits)
      ensures r.Get(a) == v
      ensures forall b :: b != a ==> r.Get(b) == Get(b)
    {
      match a
      case Heater => this.(heater := v)
      case Sprinkler => this.(sprinkler := v)
      case Light => this.(light := v)
    }

    predicate AllReachable() {
      Reachable(heater) && Reachable(sprinkler) && Reachable(light)
    }

    predicate AllInAdcRange() {
      InAdcRange(heater) && InAdcRange(sprinkler) && InAdcRange(light)
    }
  }

  const LIMITS_AT_RESET := Limits(HEATER_THRESHOLD_AT_RESET, SPRINKLER_THRESHOLD_AT_RESET, LIGHT_THRESHOLD_AT_RESET)

  /** Writing back the value a threshold already has changes nothing. */
  lemma LimitsSetSame(l: Limits, a: Actuator)
    ensures l.Set(a, l.Get(a)) == l
  {
  }

  /** A second write to the same threshold overrides the first. */
  lemma LimitsSetTwice(l: Limits, a: Actuator, v: int, w: int)
    ensures l.Set(a, v).Set(a, w) == l.Set(a, w)
  {
  }

  /**
   * The condition a monitor thread tests before releasing its semaphore and
   * its controller re-tests before pulsing: temperature at or above the
   * heater threshold, moisture or light at or below theirs.
   */
  predicate Triggers(kind: Actuator, reading: int, threshold: int) {
    match kind
    case Heater => reading >= threshold
    case Sprinkler => reading <= threshold
    case Light => reading <= threshold
  }

  /** Heater: a warmer reading still triggers; sprinkler and light: a lower reading still triggers. */
  lemma TriggersMonotone(kind: Actuator, reading: int, other: int, threshold: int)
    requires Triggers(kind, reading, threshold)
    requires if kind == Heater then other >= reading else other <= reading
    ensures Triggers(kind, other, threshold)
  {
  }

  /** At the reset threshold of 5000 every 12-bit moisture reading triggers the sprinkler. */
  lemma SprinklerAlwaysDueAtReset(moisture: int)
    requires InAdcRange(moisture)
    ensures Triggers(Sprinkler, moisture, SPRINKLER_THRESHOLD_AT_RESET)
  {
  }

  function OnDuration(kind: Actuator): nat {
    match kind
    case Heater => HEATER_ON_DURATION
    case Sprinkler => SPRINKLER_ON_DURATION
    case Light => LIGHT_ON_DURATION
  }

  /** What one wake-up of a controller thread does to the outputs. */
  datatype Pulse =
    | NoPulse
    | Pulse(on: Outputs, duration: nat, off: Outputs)

  /**
   * A controller thread after its semaphore: if the condition still holds,
   * drive the line high, wait the actuator's duration, drive it low.
   */
  function ControllerPulse(kind: Actuator, reading: int, threshold: int, o: Outputs): (p: Pulse)
    ensures p.Pulse? <==> Triggers(kind, reading, threshold)
    ensures p.Pulse? ==> p.on.Get(kind) && !p.off.Get(kind) && p.duration == OnDuration(kind)
    ensures p.Pulse? ==> forall b :: b != kind ==> p.on.Get(b) == o.Get(b) && p.off.Get(b) == o.Get(b)
  {
    if Triggers(kind, reading, threshold) then
      var on := o.Set(kind, true);
      Pulse(on, OnDuration(kind), on.Set(kind, false))
    else
      NoPulse
  }

  /** Outputs once a controller wake-up is over. */
  function AfterPulse(p: Pulse, o: Outputs): Outputs {
    match p
    case NoPulse => o
    case Pulse(_, _, off) => off
  }

  /** A pulse always ends with its actuator off, even one the command channel had switched on. */
  lemma PulseEndsOff(kind: Actuator, reading: int, threshold: int, o: Outputs)
    requires Triggers(kind, reading, threshold)
    ensures AfterPulse(ControllerPulse(kind, reading, threshold, o), o) == o.Set(kind, false)
  {
    OutputsExtensional(AfterPulse(ControllerPulse(kind, reading, threshold, o), o), o.Set(kind, false));
  }

  /** Heater reading 1650 against threshold 1600: the heater pulses for osDelay(500). */
  lemma HeaterScenario(o: Outputs)
    ensures ControllerPulse(Heater, 1650, HEATER_THRESHOLD_AT_RESET, o) == Pulse(o.(heater := true), 500, o.(heater := false))
  {
  }

  /** Moisture 4000 against the reset threshold 5000: the sprinkler pulses. */
  lemma SprinklerScenario(o: Outputs)
    ensures ControllerPulse(Sprinkler, 4000, SPRINKLER_THRESHOLD_AT_RESET, o).Pulse?
  {
  }
}
