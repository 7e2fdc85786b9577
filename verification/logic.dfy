/** The control loop: three software timers on a wrapping millisecond
    clock, the configuration record kept in flash, two release-triggered
    buttons, the display policy, brightness tiers and the three-tier fan
    decision, composed into one `LogicUpdate` step.

    Sensor values arrive already converted (uint8 degrees and a uint8
    light level); flash writes are returned as a list of saved records.
 */
module Controller {
  import opened Base
  import VfdDriver
  import VfdReadback
  import FanDriver

  const BRIGHTNESS_LEV_0: uint8 := 20
  const BRIGHTNESS_LEV_1: uint8 := 40
  const BRIGHTNESS_LEV_2: uint8 := 60

  const TEMP_DELTA_MAX: nat := 30

  const MAGIC_CONF_NUM1: uint8 := 0xfa
  const MAGIC_CONF_NUM2: uint8 := 0xcd

  const CONF_FAN_SLOW: uint8 := 0
  const CONF_FAN_NORMAL: uint8 := 1
  const CONF_FAN_FAST: uint8 := 2

  const CONF_DEFAULT_TEMP_TH: uint8 := 70

  const PERIOD_5S: uint32 := 5000
  const PERIOD_05S: uint32 := 500
  const PERIOD_5MS: uint32 := 5

  // ------------------------------------------------------------------
  // Software timers
  // ------------------------------------------------------------------

  datatype Timer = Timer(periodMs: uint32, prevMs: uint32)
  datatype TimerStep = TimerStep(fired: bool, timer: Timer)

  /** Milliseconds from `since` to `now`, as unsigned 32-bit subtraction. */
  function Elapsed(now: uint32, since: uint32): uint32
  {
    Wrap32(now - since)
  }

  /** `__timer_update`: due once a period has elapsed, or when the timer
      has never fired (a last-fire stamp of 0); firing restamps it. */
  function TimerUpdate(t: Timer, now: uint32): (r: TimerStep)
    ensures r.fired <==> Elapsed(now, t.prevMs) >= t.periodMs || t.prevMs == 0
    ensures r.timer.periodMs == t.periodMs
    ensures r.timer.prevMs == (if r.fired then now else t.prevMs)
  {
    if Elapsed(now, t.prevMs) >= t.periodMs || t.prevMs == 0 then
      TimerStep(true, t.(prevMs := now))
    else
      TimerStep(false, t)
  }

  // ------------------------------------------------------------------
  // Configuration
  // ------------------------------------------------------------------

  /** The four-byte record stored in flash. */
  datatype Config = Config(magicNum1: uint8, fanSpeed: uint8, tempThreshold: uint8, magicNum2: uint8)

  const DefaultConfig: Config :=
    Config(MAGIC_CONF_NUM1, CONF_FAN_FAST, CONF_DEFAULT_TEMP_TH, MAGIC_CONF_NUM2)

  predicate HasMagic(c: Config)
  {
    c.magicNum1 == MAGIC_CONF_NUM1 && c.magicNum2 == MAGIC_CONF_NUM2
  }

  /** The configuration adopted at boot and the records written to flash. */
  datatype Loaded = Loaded(config: Config, saves: seq<Config>)

  /** `__load_configuration` on the record `flash` holds: a record with both
      magic numbers is adopted as it is (its fields are not range-checked),
      anything else is replaced by the defaults, which are saved once. */
  function LoadConfiguration(flash: Config): (r: Loaded)
    ensures HasMagic(r.config)
    ensures HasMagic(flash) ==> r.config == flash && r.saves == []
    ensures !HasMagic(flash) ==> r.config == DefaultConfig && r.saves == [DefaultConfig]
  {
    if flash.magicNum1 == MAGIC_CONF_NUM1 && flash.magicNum2 == MAGIC_CONF_NUM2 then
      Loaded(flash, [])
    else
      Loaded(DefaultConfig, [DefaultConfig])
  }

  /** Flash contents after a sequence of saves: the last record written. */
  function FlashAfter(flash: Config, saves: seq<Config>): Config
  {
    if saves == [] then flash else saves[|saves| - 1]
  }

  // ------------------------------------------------------------------
  // Buttons
  // ------------------------------------------------------------------

  datatype ButtonState = BtnReleased | BtnPressed
  datatype ButtonEvent = EvNone | EvPressed | EvReleased
  datatype ButtonStep = ButtonStep(event: ButtonEvent, state: ButtonState)

  /** `__button_update` given the pin level (buttons are active-low, so a
      low pin means pressed).  The state is only written on an event, which
      still leaves it equal to the current reading. */
  function ButtonUpdate(prev: ButtonState, pinHigh: bool): (r: ButtonStep)
    ensures r.event == EvPressed <==> !pinHigh && prev == BtnReleased
    ensures r.event == EvReleased <==> pinHigh && prev == BtnPressed
    ensures r.state == (if pinHigh then BtnReleased else BtnPressed)
  {
    var pressed := !pinHigh;
    var ev :=
      if pressed && prev == BtnReleased then EvPressed
      else if !pressed && prev == BtnPressed then EvReleased
      else EvNone;
    var state :=
      if ev != EvNone then (if pressed then BtnPressed else BtnReleased) else prev;
    assert ev == EvNone ==> (prev == BtnPressed <==> pressed);
    ButtonStep(ev, state)
  }

  predicate Released(prev: ButtonState, pinHigh: bool)
  {
    ButtonUpdate(prev, pinHigh).event == EvReleased
  }

  // ------------------------------------------------------------------
  // Configuration edits
  // ------------------------------------------------------------------

  /** Button 1: next fan-speed preset, in uint8 arithmetic. */
  function NextFanSpeed(s: uint8): (r: uint8)
    ensures r <= CONF_FAN_FAST
    ensures s < CONF_FAN_FAST ==> r == s + 1
    ensures s >= CONF_FAN_FAST ==> r == CONF_FAN_SLOW
  {
    var n := Wrap8(s + 1);
    if n > CONF_FAN_FAST then CONF_FAN_SLOW else n
  }

  /** Button 2: threshold plus 5 in uint8 arithmetic, back to 0 above 100. */
  function NextThreshold(t: uint8): (r: uint8)
    ensures r <= 100
    ensures t <= 95 ==> r == t + 5
    ensures 95 < t <= 250 ==> r == 0
    ensures 250 < t ==> r == t + 5 - UINT8_MODULUS
  {
    var n := Wrap8(t + 5);
    if n > 100 then 0 else n
  }

  // ------------------------------------------------------------------
  // Display policy
  // ------------------------------------------------------------------

  /** Display buffer and temperature toggle after a rendering. */
  datatype View = View(sections: VfdDriver.Buffer, toggle: bool)

  /** Segments B and C (disjoint bits, so their `|` is their sum): a "1". */
  const LEADING_ONE: uint8 := VfdDriver.SEG_B + VfdDriver.SEG_C

  /** The value a toggle-mode rendering prints: a hundreds digit of 1 is
      shown separately and subtracted. */
  function ShownValue(t: uint8): uint8
  {
    if t >= 100 then t - 100 else t
  }

  /** `__display_temp`: both readings side by side when both are below
      100; otherwise one of them, alternating, on the right pair. */
  function DisplayTemp(b: VfdDriver.Buffer, toggle: bool, t1: uint8, t2: uint8): (r: View)
    ensures t1 < 100 && t2 < 100 ==>
      && r.toggle == toggle
      && VfdReadback.ReadLeft(r.sections) == Some(t1 % 100)
      && VfdReadback.ReadRight(r.sections) == Some(t2 % 100)
      && r.sections[2] == b[2]
    ensures !(t1 < 100 && t2 < 100) ==>
      && r.toggle == !toggle
      && VfdReadback.ReadRight(r.sections) == Some(ShownValue(if toggle then t1 else t2) % 100)
      && r.sections[2..] == b[2..]
  {
    if t1 < 100 && t2 < 100 then
      SideBySide(b, toggle, t1, t2)
    else
      Alternating(b, toggle, t1, t2)
  }

  /** Ambient on the left pair, chamber on the right (each modulo 100). */
  function SideBySide(b: VfdDriver.Buffer, toggle: bool, t1: uint8, t2: uint8): (r: View)
    ensures r.toggle == toggle
    ensures VfdReadback.ReadLeft(r.sections) == Some(t1 % 100)
    ensures VfdReadback.ReadRight(r.sections) == Some(t2 % 100)
    ensures r.sections[2] == b[2]
  {
    VfdReadback.PrintBothShows(b, t1, t2);
    View(VfdDriver.PrintRight(VfdDriver.PrintLeft(b, t1), t2), toggle)
  }

  /** Toggle mode: the reading picked by the toggle (ambient when set) on
      the right pair, after a "1" was written to logical section 1. */
  function Alternating(b: VfdDriver.Buffer, toggle: bool, t1: uint8, t2: uint8): (r: View)
    ensures r.toggle == !toggle
    ensures VfdReadback.ReadRight(r.sections) == Some(ShownValue(if toggle then t1 else t2) % 100)
    ensures r.sections[2..] == b[2..]
  {
    View(ShowRight(b, if toggle then t1 else t2), !toggle)
  }

  /** The right pair of toggle mode for one reading: a leading "1" in
      logical section 1 when it is 100 or more, then the reading less 100. */
  function ShowRight(b: VfdDriver.Buffer, t: uint8): (r: VfdDriver.Buffer)
    ensures VfdReadback.ReadRight(r) == Some(ShownValue(t) % 100)
    ensures r[2..] == b[2..]
  {
    if t >= 100 then
      var one := VfdDriver.LightCust(b, 1, LEADING_ONE);
      assert VfdDriver.PhysicalSection(1) == 1;
      assert one[2..] == b[2..];
      VfdReadback.PrintRightShows(one, t - 100);
      VfdDriver.PrintRight(one, t - 100)
    else
      VfdReadback.PrintRightShows(b, t);
      VfdDriver.PrintRight(b, t)
  }

  /** `__display`: the configuration view (preset left, threshold right)
      while the configuration is being changed, the temperatures otherwise. */
  function Display(b: VfdDriver.Buffer, toggle: bool, configChanged: bool, cfg: Config, t1: uint8, t2: uint8): (r: View)
    ensures configChanged ==>
      && r.toggle == toggle
      && VfdReadback.ReadLeft(r.sections) == Some(cfg.fanSpeed % 100)
      && VfdReadback.ReadRight(r.sections) == Some(cfg.tempThreshold % 100)
      && r.sections[2] == b[2]
    ensures !configChanged ==> r == DisplayTemp(b, toggle, t1, t2)
  {
    if !configChanged then
      DisplayTemp(b, toggle, t1, t2)
    else
      VfdReadback.PrintBothShows(b, cfg.fanSpeed, cfg.tempThreshold);
      View(VfdDriver.PrintRight(VfdDriver.PrintLeft(b, cfg.fanSpeed), cfg.tempThreshold), toggle)
  }

  // ------------------------------------------------------------------
  // Brightness and fan decisions
  // ------------------------------------------------------------------

  /** `__adjust_brightness` as a choice: the level to set, or None when the
      light level leaves the brightness as it is. */
  function BrightnessTier(level: uint8): (r: Option<VfdDriver.Brightness>)
    ensures level < BRIGHTNESS_LEV_0 <==> r == Some(VfdDriver.BrightnessMax)
    ensures BRIGHTNESS_LEV_0 <= level < BRIGHTNESS_LEV_1 <==> r == Some(VfdDriver.Brightness50)
    ensures BRIGHTNESS_LEV_1 <= level < BRIGHTNESS_LEV_2 <==> r == Some(VfdDriver.Brightness25)
    ensures BRIGHTNESS_LEV_2 <= level <==> r == None
    ensures r != Some(VfdDriver.BrightnessMin)
  {
    if level < BRIGHTNESS_LEV_0 then Some(VfdDriver.BrightnessMax)
    else if level < BRIGHTNESS_LEV_1 then Some(VfdDriver.Brightness50)
    else if level < BRIGHTNESS_LEV_2 then Some(VfdDriver.Brightness25)
    else None
  }

  function AdjustBrightness(v: VfdDriver.Vfd, level: uint8): (r: VfdDriver.Vfd)
    ensures r.sections == v.sections && r.current == v.current
    ensures r.skipCounter == v.skipCounter && r.pins == v.pins
    ensures level >= BRIGHTNESS_LEV_2 ==> r.skipEvery == v.skipEvery
    ensures level < BRIGHTNESS_LEV_0 ==> r.skipEvery == 0
    ensures BRIGHTNESS_LEV_0 <= level < BRIGHTNESS_LEV_1 ==> r.skipEvery == 2
    ensures BRIGHTNESS_LEV_1 <= level < BRIGHTNESS_LEV_2 ==> r.skipEvery == 3
  {
    match BrightnessTier(level)
    case None => v
    case Some(b) => VfdDriver.SetBrightness(v, b)
  }

  /** The fan power chosen from the chamber temperature (int arithmetic,
      so `threshold + 30` does not wrap). */
  function FanPower(chamber: uint8, threshold: uint8): (p: uint8)
    ensures p == 100 <==> chamber > threshold + TEMP_DELTA_MAX
    ensures p == 50 <==> threshold < chamber <= threshold + TEMP_DELTA_MAX
    ensures p == 0 <==> chamber <= threshold
  {
    if chamber > threshold + TEMP_DELTA_MAX then 100
    else if chamber > threshold then 50
    else 0
  }

  // ------------------------------------------------------------------
  // The control step
  // ------------------------------------------------------------------

  /** The module's statics together with the two drivers it commands. */
  datatype Logic = Logic(
    tim5s: Timer,
    tim05s: Timer,
    tim5ms: Timer,
    config: Config,
    configChanged: bool,
    btn1: ButtonState,
    btn2: ButtonState,
    tempToggle: bool,
    ambientT: uint8,
    chamberT: uint8,
    led: bool,
    vfd: VfdDriver.Vfd,
    fan: FanDriver.Fan)

  /** What one `logic_update` call observes: the tick counter, the sensor
      readings (used only when the 5 s task runs) and the button pin levels. */
  datatype Inputs = Inputs(
    nowMs: uint32,
    ambientT: uint8,
    chamberT: uint8,
    light: uint8,
    btn1High: bool,
    btn2High: bool)

  /** State after a step and the records it wrote to flash, in order. */
  datatype Update = Update(state: Logic, saves: seq<Config>)

  /** The 5 s task: take the readings, render them, adapt the brightness
      and command the fan. */
  function FiveSecondTask(s: Logic, i: Inputs): (r: Logic)
    ensures r.config == s.config && r.configChanged == s.configChanged
    ensures r.btn1 == s.btn1 && r.btn2 == s.btn2 && r.led == s.led
    ensures r.fan == FanDriver.SetPower(s.fan, FanPower(i.chamberT, s.config.tempThreshold))
    ensures r.ambientT == i.ambientT && r.chamberT == i.chamberT
    ensures r.vfd.skipEvery == AdjustBrightness(s.vfd, i.light).skipEvery
    ensures r.vfd.current == s.vfd.current && r.vfd.skipCounter == s.vfd.skipCounter
    ensures r.vfd.pins == s.vfd.pins
    ensures !s.configChanged && i.ambientT < 100 && i.chamberT < 100 ==>
      && VfdReadback.ReadLeft(r.vfd.sections) == Some(i.ambientT % 100)
      && VfdReadback.ReadRight(r.vfd.sections) == Some(i.chamberT % 100)
  {
    var view := Display(s.vfd.sections, s.tempToggle, s.configChanged, s.config, i.ambientT, i.chamberT);
    var vfd := AdjustBrightness(s.vfd.(sections := view.sections), i.light);
    var power := FanPower(i.chamberT, s.config.tempThreshold);
    s.(ambientT := i.ambientT, chamberT := i.chamberT,
       tempToggle := view.toggle, vfd := vfd,
       fan := FanDriver.SetPower(s.fan, power))
  }

  /** The 5 ms task: poll both buttons, apply release edits, and when the
      configuration changed show it and save it, then clear the flag. */
  function FiveMsTask(s: Logic, i: Inputs): (r: Update)
    ensures !r.state.configChanged
    ensures r.saves == [] || r.saves == [r.state.config]
    ensures r.saves != [] <==>
      s.configChanged || Released(s.btn1, i.btn1High) || Released(s.btn2, i.btn2High)
    ensures r.state.config.fanSpeed ==
      (if Released(s.btn1, i.btn1High) then NextFanSpeed(s.config.fanSpeed) else s.config.fanSpeed)
    ensures r.state.config.tempThreshold ==
      (if Released(s.btn2, i.btn2High) then NextThreshold(s.config.tempThreshold) else s.config.tempThreshold)
    ensures r.state.config.magicNum1 == s.config.magicNum1 && r.state.config.magicNum2 == s.config.magicNum2
    ensures r.saves != [] ==>
      && VfdReadback.ReadLeft(r.state.vfd.sections) == Some(r.state.config.fanSpeed % 100)
      && VfdReadback.ReadRight(r.state.vfd.sections) == Some(r.state.config.tempThreshold % 100)
    ensures r.state.vfd.sections[VfdDriver.DOT_SECTION] == s.vfd.sections[VfdDriver.DOT_SECTION]
    ensures r.saves == [] ==> r.state.vfd == s.vfd
    ensures r.state.tempToggle == s.tempToggle && r.state.fan == s.fan
    ensures r.state.btn1 == ButtonUpdate(s.btn1, i.btn1High).state
    ensures r.state.btn2 == ButtonUpdate(s.btn2, i.btn2High).state
    ensures r.state.vfd.skipEvery == s.vfd.skipEvery && r.state.vfd.current == s.vfd.current
    ensures r.state.vfd.skipCounter == s.vfd.skipCounter && r.state.vfd.pins == s.vfd.pins
  {
    var b1 := ButtonUpdate(s.btn1, i.btn1High);
    var cfg1 :=
      if b1.event == EvReleased then s.config.(fanSpeed := NextFanSpeed(s.config.fanSpeed))
      else s.config;
    var changed1 := s.configChanged || b1.event == EvReleased;
    var b2 := ButtonUpdate(s.btn2, i.btn2High);
    var cfg2 :=
      if b2.event == EvReleased then cfg1.(tempThreshold := NextThreshold(cfg1.tempThreshold))
      else cfg1;
    var changed := changed1 || b2.event == EvReleased;
    var st := s.(btn1 := b1.state, btn2 := b2.state, config := cfg2, configChanged := changed);
    if st.configChanged then
      var view := Display(st.vfd.sections, st.tempToggle, true, st.config, 0, 0);
      Update(st.(vfd := st.vfd.(sections := view.sections), tempToggle := view.toggle, configChanged := false),
             [st.config])
    else
      Update(st, [])
  }

  /** The first two stages of `logic_update`: the 5 s task when its timer
      is due, then the heartbeat LED when the 0.5 s timer is due. */
  function PeriodicTasks(s: Logic, i: Inputs): (r: Logic)
    ensures r.config == s.config && r.configChanged == s.configChanged
    ensures r.btn1 == s.btn1 && r.btn2 == s.btn2 && r.tim5ms == s.tim5ms
    ensures r.tim5s == TimerUpdate(s.tim5s, i.nowMs).timer
    ensures r.tim05s == TimerUpdate(s.tim05s, i.nowMs).timer
    ensures r.led == (s.led != TimerUpdate(s.tim05s, i.nowMs).fired)
    ensures var slow := TimerUpdate(s.tim5s, i.nowMs).fired;
      && r.fan == (if slow then FanDriver.SetPower(s.fan, FanPower(i.chamberT, s.config.tempThreshold))
                   else s.fan)
      && r.ambientT == (if slow then i.ambientT else s.ambientT)
      && r.chamberT == (if slow then i.chamberT else s.chamberT)
      && r.vfd.skipEvery == (if slow then AdjustBrightness(s.vfd, i.light).skipEvery else s.vfd.skipEvery)
      && r.tempToggle ==
           (if slow
            then Display(s.vfd.sections, s.tempToggle, s.configChanged, s.config, i.ambientT, i.chamberT).toggle
            else s.tempToggle)
      && r.vfd.sections ==
           (if slow
            then Display(s.vfd.sections, s.tempToggle, s.configChanged, s.config, i.ambientT, i.chamberT).sections
            else s.vfd.sections)
    ensures r.vfd.sections[VfdDriver.DOT_SECTION] == s.vfd.sections[VfdDriver.DOT_SECTION]
    ensures r.vfd.current == s.vfd.current && r.vfd.skipCounter == s.vfd.skipCounter
    ensures r.vfd.pins == s.vfd.pins
  {
    var t5s := TimerUpdate(s.tim5s, i.nowMs);
    var s1 := if t5s.fired then FiveSecondTask(s.(tim5s := t5s.timer), i) else s.(tim5s := t5s.timer);
    var t05s := TimerUpdate(s1.tim05s, i.nowMs);
    s1.(tim05s := t05s.timer, led := if t05s.fired then !s1.led else s1.led)
  }

  /** `logic_update`: run each task whose timer is due, in the order 5 s,
      0.5 s (heartbeat LED), 5 ms. */
  function LogicUpdate(s: Logic, i: Inputs): (r: Update)
    ensures !s.configChanged ==> !r.state.configChanged
    ensures r.saves == [] || r.saves == [r.state.config]
    ensures r.saves != [] ==> TimerUpdate(s.tim5ms, i.nowMs).fired
    ensures HasMagic(s.config) ==> HasMagic(r.state.config)
    ensures r.state.fan ==
      if TimerUpdate(s.tim5s, i.nowMs).fired
      then FanDriver.SetPower(s.fan, FanPower(i.chamberT, s.config.tempThreshold))
      else s.fan
    ensures r.state.tim5s == TimerUpdate(s.tim5s, i.nowMs).timer
    ensures r.state.tim05s == TimerUpdate(s.tim05s, i.nowMs).timer
    ensures r.state.tim5ms == TimerUpdate(s.tim5ms, i.nowMs).timer
    ensures r.state.led == (s.led != TimerUpdate(s.tim05s, i.nowMs).fired)
    // the 5 ms task: button polling, configuration edits and saves
    ensures var fast := TimerUpdate(s.tim5ms, i.nowMs).fired;
      && r.state.btn1 == (if fast then ButtonUpdate(s.btn1, i.btn1High).state else s.btn1)
      && r.state.btn2 == (if fast then ButtonUpdate(s.btn2, i.btn2High).state else s.btn2)
      && r.state.config.fanSpeed ==
           (if fast && Released(s.btn1, i.btn1High) then NextFanSpeed(s.config.fanSpeed)
            else s.config.fanSpeed)
      && r.state.config.tempThreshold ==
           (if fast && Released(s.btn2, i.btn2High) then NextThreshold(s.config.tempThreshold)
            else s.config.tempThreshold)
      && (r.saves != [] <==>
           fast && (s.configChanged || Released(s.btn1, i.btn1High) || Released(s.btn2, i.btn2High)))
    ensures r.saves != [] ==>
      && VfdReadback.ReadLeft(r.state.vfd.sections) == Some(r.state.config.fanSpeed % 100)
      && VfdReadback.ReadRight(r.state.vfd.sections) == Some(r.state.config.tempThreshold % 100)
    // the 5 s task: readings, temperature view and brightness
    ensures var slow := TimerUpdate(s.tim5s, i.nowMs).fired;
      && r.state.ambientT == (if slow then i.ambientT else s.ambientT)
      && r.state.chamberT == (if slow then i.chamberT else s.chamberT)
      && r.state.vfd.skipEvery ==
           (if slow then AdjustBrightness(s.vfd, i.light).skipEvery else s.vfd.skipEvery)
      && r.state.tempToggle ==
           (if slow
            then Display(s.vfd.sections, s.tempToggle, s.configChanged, s.config, i.ambientT, i.chamberT).toggle
            else s.tempToggle)
      && (r.saves == [] ==>
            r.state.vfd.sections ==
              (if slow then Display(s.vfd.sections, s.tempToggle, s.configChanged, s.config,
                                    i.ambientT, i.chamberT).sections
               else s.vfd.sections))
    // the main loop never writes the dot section, nor the refresh
    // interrupt's state
    ensures r.state.vfd.sections[VfdDriver.DOT_SECTION] == s.vfd.sections[VfdDriver.DOT_SECTION]
    ensures r.state.vfd.current == s.vfd.current && r.state.vfd.skipCounter == s.vfd.skipCounter
    ensures r.state.vfd.pins == s.vfd.pins
  {
    var s2 := PeriodicTasks(s, i);
    var t5ms := TimerUpdate(s2.tim5ms, i.nowMs);
    var s3 := s2.(tim5ms := t5ms.timer);
    if t5ms.fired then FiveMsTask(s3, i) else Update(s3, [])
  }
}
