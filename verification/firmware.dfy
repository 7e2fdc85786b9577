/** The whole firmware as one state machine: power-on initialisation, then
    any interleaving of main-loop steps and the three interrupts (AC
    zero-crossing, triac delay expiry, display refresh), each an atomic
    transition of the shared state. */
module Firmware {
  import opened Base
  import VfdDriver
  import FanDriver
  import opened Controller

  /** The events that drive the firmware: a main-loop iteration or one of
      the interrupt handlers the HAL callbacks route to. */
  datatype Event =
    | MainLoop(inputs: Inputs)
    | ZeroCrossing
    | TriacTimerElapsed
    | RefreshTick

  /** The state after power-on and the records written to flash meanwhile.
      `flash` is the stored record, `pins` the display lines' reset levels,
      `triacPeriod` the delay timer's reset period. */
  function PowerOn(flash: Config, pins: VfdDriver.Pins, triacPeriod: uint32): (r: Update)
    ensures Inv(r.state)
    ensures r.state.config == LoadConfiguration(flash).config
    ensures r.saves == LoadConfiguration(flash).saves
  {
    var loaded := LoadConfiguration(flash);
    var s := Logic(
      Timer(PERIOD_5S, 0), Timer(PERIOD_05S, 0), Timer(PERIOD_5MS, 0),
      loaded.config, false,
      BtnReleased, BtnReleased,
      false, 0, 0, false,
      VfdDriver.Init(pins),
      FanDriver.Init(triacPeriod));
    Update(s, loaded.saves)
  }

  /** What holds between any two events. */
  predicate Inv(s: Logic)
  {
    && !s.configChanged
    && HasMagic(s.config)
    && FanDriver.Inv(s.fan)
    && s.vfd.current < VfdDriver.SECTIONS as int
  }

  /** One event: the main loop runs `logic_update`; the interrupts step
      their driver. */
  function Step(s: Logic, e: Event): (r: Update)
    ensures Inv(s) ==> Inv(r.state)
    ensures r.saves == [] || r.saves == [r.state.config]
  {
    match e
    case MainLoop(i) => LogicUpdate(s, i)
    case ZeroCrossing => Update(s.(fan := FanDriver.ZeroCross(s.fan)), [])
    case TriacTimerElapsed => Update(s.(fan := FanDriver.LaunchTriac(s.fan)), [])
    case RefreshTick => Update(s.(vfd := VfdDriver.Tick(s.vfd)), [])
  }

  /** Running a sequence of events, collecting every flash write. */
  function Run(s: Logic, es: seq<Event>): Update
    decreases |es|
  {
    if es == [] then Update(s, [])
    else
      var first := Step(s, es[0]);
      var rest := Run(first.state, es[1..]);
      Update(rest.state, first.saves + rest.saves)
  }

  /** Every state reached from a state satisfying the invariant satisfies
      it, and every record written to flash on the way carries both magic
      numbers, so the next boot adopts it as it is. */
  lemma {:induction false} RunKeepsInv(s: Logic, es: seq<Event>)
    requires Inv(s)
    ensures Inv(Run(s, es).state)
    ensures forall c :: c in Run(s, es).saves ==> LoadConfiguration(c) == Loaded(c, [])
    decreases |es|
  {
    if es != [] {
      var first := Step(s, es[0]);
      RunKeepsInv(first.state, es[1..]);
    }
  }

  /** From power-on, whatever happens, every saved record reloads as it is
      and the change flag is clear between events. */
  lemma Reachable(flash: Config, pins: VfdDriver.Pins, triacPeriod: uint32, es: seq<Event>)
    ensures var boot := PowerOn(flash, pins, triacPeriod);
      var r := Run(boot.state, es);
      && Inv(r.state)
      && (forall c :: c in boot.saves + r.saves ==> LoadConfiguration(c) == Loaded(c, []))
  {
    var boot := PowerOn(flash, pins, triacPeriod);
    RunKeepsInv(boot.state, es);
  }
}
