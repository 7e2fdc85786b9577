/** The triac phase-control fan driver.

    Power 0 and power >= 100 drive the triac line directly ("manual
    drive").  Any power in between selects phase control: every AC
    zero-crossing switches the line off and starts a one-shot delay timer,
    whose expiry switches the line on again, so a larger power gives a
    shorter off-time per half-cycle.  The interrupt handlers are atomic
    transitions of the `Fan` record; the timer peripheral is reduced to
    whether it is armed and the period it is configured with.
 */
module FanDriver {
  import opened Base

  const TIMER_DELAY_MIN: nat := 0
  const TIMER_DELAY_MAX: nat := 80

  datatype Fan = Fan(
    prevPowerPerc: uint8,
    manualDrive: bool,
    timerArmed: bool,
    timerPeriod: uint32,
    fanOn: bool)

  /** The driver's safety invariant: a manually driven triac never has a
      pending delay, and while a delay is pending the line is off. */
  predicate Inv(f: Fan)
  {
    && (f.manualDrive ==> !f.timerArmed)
    && (f.timerArmed ==> !f.fanOn)
  }

  /** State after `fan_driver_init`.  The last power and the manual flag
      are zero-initialised statics, so the driver starts in phase-control
      mode with a remembered power of 0; `period` is whatever the timer
      peripheral was configured with before. */
  function Init(period: uint32): (f: Fan)
    ensures f.prevPowerPerc == 0 && !f.manualDrive && !f.fanOn && !f.timerArmed
    ensures f.timerPeriod == period
    ensures Inv(f)
  {
    Fan(0, false, false, period, false)
  }

  /** The delay, in timer ticks after a zero-crossing, for a power strictly
      between 0 and 100: the range is interpolated inversely and truncated. */
  function DelayFor(p: uint8): (d: uint32)
    requires 0 < p < 100
    ensures d * 100 <= 80 * (100 - p) < (d + 1) * 100
    ensures d < TIMER_DELAY_MAX
  {
    var inv := 100 - p;
    TIMER_DELAY_MIN + (TIMER_DELAY_MAX - TIMER_DELAY_MIN) * inv / 100
  }

  /** `fan_driver_set_power`. */
  function SetPower(f: Fan, p: uint8): (r: Fan)
    ensures p == f.prevPowerPerc ==> r == f
    ensures p != f.prevPowerPerc ==> r.prevPowerPerc == p && !r.timerArmed
    ensures p != f.prevPowerPerc && p == 0 ==> r.manualDrive && !r.fanOn
    ensures p != f.prevPowerPerc && p >= 100 ==> r.manualDrive && r.fanOn
    ensures p != f.prevPowerPerc && 0 < p < 100 ==>
      && !r.manualDrive
      && r.timerPeriod * 100 <= 80 * (100 - p) < (r.timerPeriod + 1) * 100
      && r.fanOn == f.fanOn
    ensures Inv(f) ==> Inv(r)
  {
    if p == f.prevPowerPerc then
      f
    else
      var stopped := f.(prevPowerPerc := p, timerArmed := false);
      if p == 0 then
        stopped.(manualDrive := true, fanOn := false)
      else if p >= 100 then
        stopped.(manualDrive := true, fanOn := true)
      else
        stopped.(manualDrive := false, timerPeriod := DelayFor(p))
  }

  /** `fan_driver_zero_cross_int`. */
  function ZeroCross(f: Fan): (r: Fan)
    ensures f.manualDrive ==> r == f
    ensures !f.manualDrive ==> !r.fanOn && r.timerArmed && r.timerPeriod == f.timerPeriod
    ensures r.prevPowerPerc == f.prevPowerPerc && r.manualDrive == f.manualDrive
    ensures Inv(f) ==> Inv(r)
  {
    if f.manualDrive then f else f.(fanOn := false, timerArmed := true)
  }

  /** `fan_driver_launch_triac_int`, run when the delay timer expires. */
  function LaunchTriac(f: Fan): (r: Fan)
    ensures r.fanOn && !r.timerArmed
    ensures r.prevPowerPerc == f.prevPowerPerc && r.manualDrive == f.manualDrive
    ensures r.timerPeriod == f.timerPeriod
    ensures Inv(f) ==> Inv(r)
  {
    f.(timerArmed := false, fanOn := true)
  }

  /** The three entry points, as events a trace is made of. */
  datatype FanEvent = SetPowerEvent(p: uint8) | ZeroCrossEvent | TimerExpiredEvent

  function Step(f: Fan, e: FanEvent): Fan
  {
    match e
    case SetPowerEvent(p) => SetPower(f, p)
    case ZeroCrossEvent => ZeroCross(f)
    case TimerExpiredEvent => LaunchTriac(f)
  }

  function Run(f: Fan, es: seq<FanEvent>): Fan
    decreases |es|
  {
    if es == [] then f else Run(Step(f, es[0]), es[1..])
  }
}
