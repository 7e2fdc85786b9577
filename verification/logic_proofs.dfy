/** Properties of the control loop's parts: timers across clock
    wrap-around, the flash round trip, button event traces, the edit cycles,
    the tier decisions and the display policy. */
module ControllerProofs {
  import opened Base
  import VfdDriver
  import VfdReadback
  import FanDriver
  import opened Controller

  // ------------------------------------------------------------------
  // Timers
  // ------------------------------------------------------------------

  /** A timer last fired at `start` (non-zero) fires at the clock value d
      milliseconds later exactly when d reaches the period, also when the
      32-bit clock wrapped in between. */
  lemma TimerMeasuresElapsed(t: Timer, d: nat)
    requires t.prevMs != 0 && d < UINT32_MODULUS
    ensures TimerUpdate(t, Wrap32(t.prevMs + d)).fired <==> d >= t.periodMs
  {
    var now := Wrap32(t.prevMs + d);
    if t.prevMs + d < UINT32_MODULUS {
      assert now == t.prevMs + d;
    } else {
      assert now == t.prevMs + d - UINT32_MODULUS;
    }
    assert Elapsed(now, t.prevMs) == d;
  }

  /** A timer that has never fired is due at once; firing at clock value 0
      leaves it looking unfired, so it is due again on the next call. */
  lemma TimerZeroStampIsDue(t: Timer, now: uint32)
    requires t.prevMs == 0
    ensures TimerUpdate(t, now).fired
    ensures TimerUpdate(t, now).timer.prevMs == now
  {
  }

  // ------------------------------------------------------------------
  // Configuration in flash
  // ------------------------------------------------------------------

  /** Booting twice: whatever the first load found in flash, the second
      load adopts the first one's configuration and writes nothing. */
  lemma LoadTwiceIsStable(flash: Config)
    ensures var first := LoadConfiguration(flash);
      LoadConfiguration(FlashAfter(flash, first.saves)) == Loaded(first.config, [])
  {
  }

  /** A stored record with both magic numbers is adopted verbatim, even
      with an out-of-range preset or threshold. */
  lemma UncheckedRecordAdopted()
    ensures LoadConfiguration(Config(0xfa, 7, 253, 0xcd)).config == Config(0xfa, 7, 253, 0xcd)
    ensures LoadConfiguration(Config(0xfa, 7, 253, 0xcd)).saves == []
  {
  }

  // ------------------------------------------------------------------
  // Buttons
  // ------------------------------------------------------------------

  datatype ButtonTrace = ButtonTrace(events: seq<ButtonEvent>, state: ButtonState)

  /** Successive polls of one button over a sequence of pin levels. */
  function PollAll(prev: ButtonState, levels: seq<bool>): (r: ButtonTrace)
    ensures |r.events| == |levels|
    decreases |levels|
  {
    if levels == [] then ButtonTrace([], prev)
    else
      var first := ButtonUpdate(prev, levels[0]);
      var rest := PollAll(first.state, levels[1..]);
      ButtonTrace([first.event] + rest.events, rest.state)
  }

  function Count(es: seq<ButtonEvent>, e: ButtonEvent): nat
    decreases |es|
  {
    if es == [] then 0 else (if es[0] == e then 1 else 0) + Count(es[1..], e)
  }

  function Held(b: ButtonState): nat
  {
    if b == BtnPressed then 1 else 0
  }

  /** Press and release events balance: over any polling sequence the
      presses exceed the releases by exactly the change in held state. */
  lemma {:induction false} PressReleaseBalance(prev: ButtonState, levels: seq<bool>)
    ensures var r := PollAll(prev, levels);
      Count(r.events, EvPressed) + Held(prev) == Count(r.events, EvReleased) + Held(r.state)
    decreases |levels|
  {
    if levels != [] {
      var first := ButtonUpdate(prev, levels[0]);
      PressReleaseBalance(first.state, levels[1..]);
      var r := PollAll(prev, levels);
      assert r.events[1..] == PollAll(first.state, levels[1..]).events;
    }
  }

  /** Starting released, every release event was preceded by its press:
      there are never more releases than presses. */
  lemma ReleasesFollowPresses(levels: seq<bool>)
    ensures var r := PollAll(BtnReleased, levels);
      Count(r.events, EvReleased) <= Count(r.events, EvPressed)
  {
    PressReleaseBalance(BtnReleased, levels);
  }

  /** A released pin seen while the button is already released gives no event. */
  lemma ReleaseWithoutPressIsSilent()
    ensures ButtonUpdate(BtnReleased, true) == ButtonStep(EvNone, BtnReleased)
  {
  }

  // ------------------------------------------------------------------
  // Configuration edits
  // ------------------------------------------------------------------

  /** Three releases of button 1 bring any valid preset back: 0, 1, 2, 0. */
  lemma FanSpeedCycle(s: uint8)
    requires s <= CONF_FAN_FAST
    ensures NextFanSpeed(NextFanSpeed(NextFanSpeed(s))) == s
    ensures NextFanSpeed(s) != s
  {
  }

  /** The threshold after `n` releases of button 2. */
  function ThresholdAfter(t: uint8, n: nat): uint8
    decreases n
  {
    if n == 0 then t else ThresholdAfter(NextThreshold(t), n - 1)
  }

  lemma {:induction false} ThresholdAfterSplit(t: uint8, a: nat, b: nat)
    ensures ThresholdAfter(t, a + b) == ThresholdAfter(ThresholdAfter(t, a), b)
    decreases a
  {
    if a > 0 {
      ThresholdAfterSplit(NextThreshold(t), a - 1, b);
    }
  }

  /** Below the top the threshold climbs in steps of 5. */
  lemma {:induction false} ThresholdClimbs(t: uint8, n: nat)
    requires t + 5 * n <= 100
    ensures ThresholdAfter(t, n) == t + 5 * n
    decreases n
  {
    if n > 0 {
      ThresholdClimbs(NextThreshold(t), n - 1);
    }
  }

  /** On the grid 0, 5, ..., 100 the threshold cycles with period 21:
      95 goes to 100 and 100 goes to 0. */
  lemma ThresholdCycle(t: uint8)
    requires t <= 100 && t % 5 == 0
    ensures ThresholdAfter(t, 21) == t
  {
    var k := (100 - t) / 5;
    ThresholdClimbs(t, k);
    assert ThresholdAfter(t, k) == 100;
    assert ThresholdAfter(100, 1) == 0;
    ThresholdClimbs(0, 20 - k);
    ThresholdAfterSplit(t, k, 1);
    ThresholdAfterSplit(t, k + 1, 20 - k);
  }

  /** A threshold loaded out of range wraps in uint8 arithmetic: 253 + 5
      is 2, which is not above 100, so it stays. */
  lemma ThresholdWrapExample()
    ensures NextThreshold(253) == 2
    ensures NextThreshold(95) == 100
    ensures NextThreshold(100) == 0
  {
  }

  // ------------------------------------------------------------------
  // Tier decisions
  // ------------------------------------------------------------------

  /** A higher light level never selects a shorter skip threshold (a
      brighter display), as long as it changes the brightness at all. */
  lemma BrightnessTierMonotone(l1: uint8, l2: uint8)
    requires l1 <= l2 < BRIGHTNESS_LEV_2
    ensures BrightnessTier(l1).Some? && BrightnessTier(l2).Some?
    ensures VfdDriver.SkipThreshold(BrightnessTier(l1).value) <= VfdDriver.SkipThreshold(BrightnessTier(l2).value)
  {
  }

  /** A hotter chamber never gets less fan power. */
  lemma FanPowerMonotone(c1: uint8, c2: uint8, threshold: uint8)
    requires c1 <= c2
    ensures FanPower(c1, threshold) <= FanPower(c2, threshold)
  {
  }

  /** The boundaries of the three tiers. */
  lemma FanPowerBoundaries(threshold: uint8)
    requires threshold + 31 < UINT8_MODULUS && threshold > 0
    ensures FanPower((threshold + 31) as uint8, threshold) == 100
    ensures FanPower((threshold + 30) as uint8, threshold) == 50
    ensures FanPower((threshold + 1) as uint8, threshold) == 50
    ensures FanPower(threshold, threshold) == 0
    ensures FanPower((threshold - 1) as uint8, threshold) == 0
  {
  }

  // ------------------------------------------------------------------
  // Display policy
  // ------------------------------------------------------------------

  /** In toggle mode the "1" written to logical section 1 is overwritten by
      the right pair at once: the buffer is exactly what printing the
      reduced value alone gives. */
  lemma LeadingOneOverwritten(b: VfdDriver.Buffer, toggle: bool, t1: uint8, t2: uint8)
    ensures Alternating(b, toggle, t1, t2).sections
      == VfdDriver.PrintRight(b, ShownValue(if toggle then t1 else t2))
  {
    var t := if toggle then t1 else t2;
    if t >= 100 {
      var one := VfdDriver.LightCust(b, 1, LEADING_ONE);
      assert VfdDriver.PhysicalSection(1) == 1;
      var x := VfdDriver.PrintRight(one, t - 100);
      var y := VfdDriver.PrintRight(b, t - 100);
      assert forall j :: 0 <= j < VfdDriver.SECTIONS ==> x[j] == y[j];
    }
  }

  /** Successive temperature renderings in toggle mode alternate between
      the two readings on the right pair. */
  lemma ToggleAlternates(b: VfdDriver.Buffer, toggle: bool, t1: uint8, t2: uint8)
    requires !(t1 < 100 && t2 < 100)
    ensures var first := DisplayTemp(b, toggle, t1, t2);
      var second := DisplayTemp(first.sections, first.toggle, t1, t2);
      && second.toggle == toggle
      && {VfdReadback.ReadRight(first.sections), VfdReadback.ReadRight(second.sections)}
         == {Some(ShownValue(t1) % 100), Some(ShownValue(t2) % 100)}
  {
  }

  /** The configuration view shows a threshold of 100 as "00". */
  lemma ThresholdHundredShowsZero(b: VfdDriver.Buffer, toggle: bool, cfg: Config)
    requires cfg.tempThreshold == 100
    ensures VfdReadback.ReadRight(Display(b, toggle, true, cfg, 0, 0).sections) == Some(0)
  {
    VfdReadback.PrintRightShows(VfdDriver.PrintLeft(b, cfg.fanSpeed), 100);
  }

  // ------------------------------------------------------------------
  // The control step
  // ------------------------------------------------------------------

  /** Between steps the change flag is clear, so the 5 s task always
      renders the temperatures, never the configuration view. */
  lemma FiveSecondTaskShowsTemperatures(s: Logic, i: Inputs)
    requires !s.configChanged
    ensures var r := FiveSecondTask(s, i);
      var view := DisplayTemp(s.vfd.sections, s.tempToggle, i.ambientT, i.chamberT);
      r.vfd.sections == view.sections && r.tempToggle == view.toggle
  {
  }

  /** In a step where the 5 ms timer is due, the configuration is saved
      (once) exactly when one of the buttons was released. */
  lemma ReleaseSavesOnce(s: Logic, i: Inputs)
    requires !s.configChanged
    requires TimerUpdate(s.tim5ms, i.nowMs).fired
    ensures var r := LogicUpdate(s, i);
      && (r.saves != [] <==> Released(s.btn1, i.btn1High) || Released(s.btn2, i.btn2High))
      && (r.saves != [] ==> r.saves == [r.state.config])
  {
  }
}
