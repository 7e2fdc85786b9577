# VFD thermostat firmware — a Dafny model of its control core

This project models the real-time core of a small STM32 appliance
controller: a fan-cooled chamber with two temperature sensors, a light
sensor, a five-section vacuum-fluorescent display (VFD), a triac-driven AC
fan and two push-buttons. Three C files make up the core:

- **Display driver** (`vfd_driver.c`). A segment encoder writes a five-byte
  section buffer (`print_left`, `print_right`, `light_cust`, `light_dots`,
  `clear`) through a 16-entry seven-segment table. A refresh interrupt lights
  one section at a time. Between advances it counts a brightness-dependent
  number of blank ticks.
- **Triac fan driver** (`fan_driver.c`). Power 0 and power ≥ 100 drive the
  triac line directly ("manual drive"). Powers in between use phase
  control: each AC zero-crossing turns the line off and arms a one-shot
  delay timer, and the timer's expiry turns the line on.
- **Control logic** (`logic.c`). Three software timers (5 s, 0.5 s, 5 ms)
  run on a wrapping 32-bit millisecond clock. The configuration record in
  flash is guarded by magic numbers. The two buttons are release-triggered
  and edit the configuration. The logic also sets the temperature display
  policy, the brightness tiers and the three-tier fan decision. All of this
  is composed into one `logic_update` step.

Every piece of state is an immutable record, and every entry point is a
pure function from state to state. The files are:

- `base.dfy`: `uint8`/`uint32` and explicit wrap-around.
- `vfd_driver.dfy`: module `VfdDriver`.
- `vfd_readback.dfy`: module `VfdReadback`. It holds reference definitions
  of what a viewer reads off the display, and the refresh schedule over many
  ticks.
- `fan_driver.dfy`: module `FanDriver`.
- `fan_driver_proofs.dfy`: module `FanDriverProofs`.
- `logic.dfy`: module `Controller`.
- `logic_proofs.dfy`: module `ControllerProofs`.
- `firmware.dfy`: module `Firmware`. It covers power-on and any interleaving
  of main-loop steps and interrupts.

Hardware becomes data:

- GPIO outputs (five grids, segments A..G, two dots, the triac line, the
  heartbeat LED) are fields of the state.
- The triac delay timer is reduced to whether it is armed and its period.
- Flash is an input record at boot plus the list of records each step
  saves.
- Sensor readings come in already converted, as `uint8` degrees and a
  `uint8` light level.
- Button pins come in as levels. The buttons are active-low, so a low pin
  means pressed.

Where the code and its written design differ, the model follows the code:

- The fan driver starts with a remembered power of 0, not an "unset"
  sentinel, and in phase-control mode. So the first `set_power(0)` is
  ignored.
- The fan invariant that holds is weaker than "exactly one of on, off,
  armed". What holds is: manual drive has no pending delay, and a pending
  delay means the line is off.
- The skip counter is bounded by the threshold only after a refresh tick.
  `set_brightness` does not reset it.
- `vfd_driver_init` stores the enumerator value 3 of `VFD_BRID_MAX` as the
  skip threshold, not the mapped threshold 0.
- Every refresh tick deselects all grids before the skip check. A blank tick
  therefore leaves the display dark.
- The brightness tiering never selects MIN. A light level ≥ 60 leaves the
  brightness unchanged. A low level gives the brightest display.
- The configuration is not range-checked after loading. Edits use `uint8`
  arithmetic (253 + 5 becomes 2).
- The change flag is set and cleared within the 5 ms task. So the 5 s task
  never shows the configuration view.
- In toggle mode, the "1" written for a reading ≥ 100 is overwritten at once
  by the right digit pair.
- A threshold of 100 shows as "00".
- The 5 s task's fan decision compares the chamber temperature with
  `threshold + 30` in `int` arithmetic, so that sum does not wrap.

## Model

| member | source | states |
|---|---|---|
| `VfdDriver.Init` | firmware/Src/vfd_driver.c:43-52 | The buffer and the section index start at zero. The skip threshold is the enumerator value 3 of the maximum level, which differs from that level's mapped threshold 0. |
| `VfdDriver.SkipThreshold` | firmware/Src/vfd_driver.c:183-199 | MIN, 25 %, 50 % and MAX give 4, 3, 2 and 0 blank ticks. Below MAX that is 4 minus the enumerator value. It is never above 4. |
| `VfdDriver.SetBrightness` | firmware/Src/vfd_driver.c:183-199 | The skip threshold becomes the level's mapped value. The buffer, section, counter and lines are unchanged. The counter is not reset, so it can stay above a lowered threshold until the next tick. |
| `VfdDriver.PhysicalSection` | firmware/Src/vfd_driver.c:54-57 | The section written is always in [0,5). Logical 0,1,2,3 land on 0,1,3,4 and never on the dot section. Logical 4 wraps to 0, 6 lands on the dot section, and 255 wraps through 8-bit overflow to 0. |
| `VfdDriver.LightCust` | firmware/Src/vfd_driver.c:54-60 | Exactly the mapped section takes the pattern. All other sections are unchanged. |
| `VfdDriver.LightDots` | firmware/Src/vfd_driver.c:62-65 | Only the dot section (2) is written. |
| `VfdDriver.Print` | firmware/Src/vfd_driver.c:67-82 | The left section gets the table entry of the tens digit modulo 10, and the right section the entry of the units digit. No other section changes. |
| `VfdDriver.PrintLeft` | firmware/Src/vfd_driver.c:84-87 | Sections 4 and 3 get `table[(n/10)%10]` and `table[n%10]`. Sections 0..2 are unchanged. |
| `VfdDriver.PrintRight` | firmware/Src/vfd_driver.c:89-92 | Sections 1 and 0 get the same two digits. Sections 2..4 are unchanged. |
| `VfdDriver.Clear` | firmware/Src/vfd_driver.c:94-101 | All five sections become zero. |
| `VfdDriver.SelectSection` | firmware/Src/vfd_driver.c:118-162 | For a section index in 0..4 exactly that grid is selected. The segment and dot lines are untouched. |
| `VfdDriver.NextSection` | firmware/Src/vfd_driver.c:212-213 | An advance goes to c+1, and from 4 back to 0. The result is always a valid section. |
| `VfdDriver.Tick` | firmware/Src/vfd_driver.c:201-239 | The counter never exceeds the threshold after a tick. The section advances iff the counter had reached the threshold, and the counter is then reset. An advancing tick ends with exactly the new section's grid selected. A blank tick keeps the section, increments the counter and ends with no grid selected and the other lines unchanged. The buffer and threshold are untouched. |
| `VfdReadback.FindDigit` | firmware/Src/vfd_driver.c:38-41 | A digit found for a pattern is in 0..9 and its table entry is that pattern. If no digit is found, no digit 0..9 has that pattern. |
| `VfdReadback.DigitOfTable` | firmware/Src/vfd_driver.c:38-41 | The patterns of digits 0..9 are pairwise distinct, so each reads back as its own digit. |
| `VfdReadback.PrintShows` | firmware/Src/vfd_driver.c:72-82 | The two printed sections read back as n mod 100. Only table entries 0..9 are used, and 123 shows as 23. |
| `VfdReadback.PrintLeftShows` | firmware/Src/vfd_driver.c:84-87 | The left pair reads back as n mod 100, and sections 0..2 are unchanged. |
| `VfdReadback.PrintRightShows` | firmware/Src/vfd_driver.c:89-92 | The right pair reads back as n mod 100, and sections 2..4 are unchanged. |
| `VfdReadback.PrintBothShows` | firmware/Src/vfd_driver.c:84-92 | `print_left(a)` then `print_right(b)` shows a and b (mod 100) side by side and keeps the dot section. |
| `VfdReadback.ClearShowsNothing` | firmware/Src/vfd_driver.c:94-101 | A cleared buffer shows no digit on either pair. |
| `VfdReadback.DotsReachPins` | firmware/Src/vfd_driver.c:62-65 | The pattern written by `light_dots` drives DOT_H and DOT_L on the next tick that advances onto the dot section. That tick lights only that grid. |
| `VfdDriver.EncodeSection` | firmware/Src/vfd_driver.c:172-181 | Its contract is the two lemmas below: the lines carry the byte modulo 0x80, and bit 0x80 is never wired. |
| `VfdReadback.EncodeSectionCarriesLowBits` | firmware/Src/vfd_driver.c:172-181 | The segment lines A..G, read as bits 0x01..0x40, give back the section byte modulo 0x80. |
| `VfdReadback.EncodeSectionIgnoresBit7` | firmware/Src/vfd_driver.c:172-181 | Bytes that differ only in bit 0x80 drive identical segment lines. |
| `VfdReadback.BlankTicks` | firmware/Src/vfd_driver.c:203-210 | While the counter is below the threshold, each tick keeps the section, counts up by one and leaves every grid deselected. |
| `VfdReadback.AdvancesEveryPeriod` | firmware/Src/vfd_driver.c:203-213 | With threshold k and a reset counter, the section is held for k ticks. Tick k+1 advances to the next section, resets the counter and lights only that section. |
| `VfdReadback.RoundRobin` | firmware/Src/vfd_driver.c:205-213 | After j periods of k+1 ticks the display is on section (c+j) mod 5, cycling 0→1→2→3→4→0. |
| `VfdReadback.FullCycle` | firmware/Src/vfd_driver.c:212-213 | Five periods bring the refresh back to its starting section. |
| `VfdReadback.AdvanceDrivesSection` | firmware/Src/vfd_driver.c:215-239 | On the dot section only DOT_H (bit 0x1) and DOT_L (bit 0x2) are driven and the segment lines keep their levels. On the other sections the segment lines carry the byte's low seven bits and the dot lines keep their levels. |
| `FanDriver.Init` | firmware/Src/fan_driver.c:29-52 | The driver starts with a remembered power of 0, not in manual drive, the line off and no delay armed. The invariant holds. |
| `FanDriver.DelayFor` | firmware/Src/fan_driver.c:74-76 | For 0 < p < 100 the delay d satisfies 100·d ≤ 80·(100−p) < 100·(d+1), which is integer division, and d < 80. |
| `FanDriver.SetPower` | firmware/Src/fan_driver.c:54-81 | Repeating the remembered power changes nothing. Any other power p is remembered and the timer is disarmed. p = 0 forces manual drive with the line off. p ≥ 100 forces manual drive with the line on. 0 < p < 100 leaves manual drive, sets the period to the truncated 80·(100−p)/100 and does not touch the line. The invariant is preserved. |
| `FanDriver.ZeroCross` | firmware/Src/fan_driver.c:83-92 | In manual drive nothing changes. Otherwise the line goes off and the timer is armed with the configured period. The invariant is preserved. |
| `FanDriver.LaunchTriac` | firmware/Src/fan_driver.c:94-99 | The timer is disarmed and the line is on. The mode and the period are unchanged. The invariant is preserved. |
| `FanDriverProofs.SetPowerIdempotent` | firmware/Src/fan_driver.c:56-60 | A second call with the same power is a no-op. |
| `FanDriverProofs.FirstSetPowerZeroIsIgnored` | firmware/Src/fan_driver.c:31-32 | `set_power(0)` right after init leaves the state as it was, so the driver stays in phase-control mode. |
| `FanDriverProofs.DelayNonIncreasing` | firmware/Src/fan_driver.c:74-76 | More power never gives a longer delay. |
| `FanDriverProofs.PhaseCycle` | firmware/Src/fan_driver.c:83-99 | In phase mode a zero-crossing turns the line off with the timer armed. The expiry then turns it on with the timer disarmed. |
| `FanDriverProofs.ManualIgnoresZeroCross` | firmware/Src/fan_driver.c:85-87 | In manual drive a zero-crossing changes nothing. |
| `FanDriverProofs.RunPreservesInv` | firmware/Src/fan_driver.c:54-99 | Over any trace of power commands and interrupts, manual drive never has a pending delay, and a pending delay means the line is off. |
| `FanDriverProofs.LastCommandWins` | firmware/Src/fan_driver.c:56-60 | After a sequence of power commands, the remembered power is the last one. The delay timer ends disarmed if it was not armed before, or if the first command changed the power. Only a zero crossing arms it. |
| `Controller.TimerUpdate` | firmware/Src/logic.c:56-65 | The timer fires iff (now − prev) mod 2^32 ≥ period or prev = 0. Firing restamps prev to now. Otherwise the timer is unchanged. |
| `ControllerProofs.TimerMeasuresElapsed` | firmware/Src/logic.c:56-65 | With a non-zero stamp, the timer fires d ms later iff d ≥ period, also across 32-bit clock wrap-around. |
| `ControllerProofs.TimerZeroStampIsDue` | firmware/Src/logic.c:58-62 | A zero stamp always fires and is restamped. |
| `Controller.LoadConfiguration` | firmware/Src/logic.c:105-130 | A record with magics 0xfa/0xcd is adopted verbatim with no save. Anything else gives {0xfa, 2, 70, 0xcd} and exactly one save of it. The adopted record always carries both magics. |
| `ControllerProofs.LoadTwiceIsStable` | firmware/Src/logic.c:95-130 | A second boot adopts what the first boot adopted, and writes nothing. |
| `ControllerProofs.UncheckedRecordAdopted` | firmware/Src/logic.c:115-118 | A magic-valid record with preset 7 and threshold 253 is adopted unchanged. |
| `Controller.ButtonUpdate` | firmware/Src/logic.c:156-174 | PRESSED iff the pin is low and the button was released. RELEASED iff the pin is high and the button was pressed. Afterwards the state equals the current reading, even though the code writes it only on events. |
| `ControllerProofs.PollAll` | firmware/Src/logic.c:156-174 | Polling a sequence of levels gives one event per level. |
| `ControllerProofs.PressReleaseBalance` | firmware/Src/logic.c:156-174 | Over any sequence of polls, the presses minus the releases equal the change in held state. |
| `ControllerProofs.ReleasesFollowPresses` | firmware/Src/logic.c:156-174 | Starting released, there are never more RELEASED events than PRESSED events. |
| `ControllerProofs.ReleaseWithoutPressIsSilent` | firmware/Src/logic.c:163-167 | A high pin on a released button gives no event. |
| `Controller.NextFanSpeed` | firmware/Src/logic.c:390-396 | The result is always ≤ 2. Below 2 it is s+1, and from 2 or more (including 255, via uint8 wrap) it is 0. |
| `ControllerProofs.FanSpeedCycle` | firmware/Src/logic.c:390-396 | Valid presets cycle 0→1→2→0 with period 3. |
| `Controller.NextThreshold` | firmware/Src/logic.c:400-406 | The result is always ≤ 100. Up to 95 it is t+5, from 96 to 250 it is 0, and above 250 it wraps in uint8 to t+5−256. |
| `ControllerProofs.ThresholdClimbs` | firmware/Src/logic.c:400-406 | Below the top, n edits add 5·n. |
| `ControllerProofs.ThresholdCycle` | firmware/Src/logic.c:400-406 | On the grid 0,5,…,100 the threshold cycles with period 21, going 95→100→0. |
| `ControllerProofs.ThresholdWrapExample` | firmware/Src/logic.c:402-405 | 253 becomes 2 and stays 2, 95 becomes 100, and 100 becomes 0. |
| `Controller.SideBySide` | firmware/Src/logic.c:196-198 | The left pair shows t1 and the right pair t2 (each mod 100). The toggle and the dot section are unchanged. |
| `Controller.Alternating` | firmware/Src/logic.c:199-212 | The toggle flips. The right pair shows t1 if the toggle was set and t2 otherwise, less 100 when ≥ 100. Sections 2..4 are unchanged. |
| `Controller.ShowRight` | firmware/Src/logic.c:204-211 | The right pair shows the reading less 100 when ≥ 100, the reading itself otherwise. The "1" written before it goes to logical section 1, which is physical section 1, so sections 2..4 are unchanged. |
| `Controller.DisplayTemp` | firmware/Src/logic.c:194-213 | Both readings < 100: side by side, and the toggle is unchanged. Otherwise the toggle flips and only sections 0 and 1 change, showing the reading the old toggle selects. |
| `ControllerProofs.LeadingOneOverwritten` | firmware/Src/logic.c:204-208 | In toggle mode the buffer equals what printing the reduced value alone gives. The "1" written to logical section 1 leaves no trace. |
| `ControllerProofs.ToggleAlternates` | firmware/Src/logic.c:199-212 | Two successive toggle-mode renderings restore the toggle and show both readings between them. |
| `Controller.Display` | firmware/Src/logic.c:215-223 | While the configuration is changing, the preset is shown left and the threshold right, and the toggle is kept. Otherwise the temperatures are rendered. |
| `ControllerProofs.ThresholdHundredShowsZero` | firmware/Src/logic.c:220-221 | A threshold of 100 reads back as 00 in the configuration view. |
| `Controller.BrightnessTier` | firmware/Src/logic.c:225-233 | Level < 20 gives MAX, < 40 gives 50 %, < 60 gives 25 %, and ≥ 60 gives no change. MIN is never chosen. |
| `Controller.AdjustBrightness` | firmware/Src/logic.c:225-233 | Only the skip threshold may change. Below 20 it becomes 0 (MAX), from 20 below 40 it becomes 2 (50 %), from 40 below 60 it becomes 3 (25 %). At 60 or above it is unchanged. |
| `ControllerProofs.BrightnessTierMonotone` | firmware/Src/logic.c:225-233 | Below 60, a higher level never gives a brighter display, that is a smaller skip threshold. |
| `Controller.FanPower` | firmware/Src/logic.c:369-377 | Chamber > th+30 gives 100. th < chamber ≤ th+30 gives 50. Chamber ≤ th gives 0. |
| `ControllerProofs.FanPowerMonotone` | firmware/Src/logic.c:369-377 | A hotter chamber never gets less power. |
| `ControllerProofs.FanPowerBoundaries` | firmware/Src/logic.c:369-377 | th+31 gives 100. th+30 and th+1 give 50. th and th−1 give 0. |
| `Controller.FiveSecondTask` | firmware/Src/logic.c:358-378 | The readings are stored. The fan is commanded with the tier for the chamber reading. The skip threshold is the one `__adjust_brightness` picks for the light level. The refresh section, counter and lines, the configuration, the buttons and the LED are untouched. With the change flag clear and both readings < 100, the display shows ambient left and chamber right. |
| `ControllerProofs.FiveSecondTaskShowsTemperatures` | firmware/Src/logic.c:217-218 | With the change flag clear, the 5 s task renders the temperature view, never the configuration view. |
| `Controller.FiveMsTask` | firmware/Src/logic.c:386-413 | Afterwards the change flag is clear. Each button keeps its new reading as its state. A save happens (once, of the new configuration) iff a button was released or the flag was already set. A button-1 release advances the preset and a button-2 release advances the threshold. The magics are kept. A save shows the configuration view and leaves the dot section as it was. Without a save the display is untouched. The brightness and the refresh state are never touched. |
| `Controller.PeriodicTasks` | firmware/Src/logic.c:357-383 | When the 5 s timer fired, the readings are stored, the buffer holds the view `__display` renders, the temperature toggle is the one `__display` leaves, the threshold is the brightness tier's and the fan gets the temperature tier. Otherwise those are unchanged. The dot section is never written. The LED toggles iff the 0.5 s timer fired. The configuration, its flag, the buttons and the 5 ms timer are untouched. |
| `Controller.LogicUpdate` | firmware/Src/logic.c:353-414 | Every timer is the result of its own update. The LED toggles iff the 0.5 s timer fired. The fan, the readings, the temperature toggle and the brightness change only when the 5 s timer fired, and then as that task decides. Buttons are polled and edits applied only when the 5 ms timer fired. A save happens iff that timer fired and a button was released or the flag was set. It happens once, of the new configuration, and leaves the configuration view on the display. Without a save the buffer is the 5 s task's temperature view, or unchanged when that task did not run. A clear change flag stays clear. The magics are preserved. The dot section and the refresh state are untouched. |
| `ControllerProofs.ReleaseSavesOnce` | firmware/Src/logic.c:386-412 | With the change flag clear (as between steps), in a step where the 5 ms timer is due, the configuration is saved exactly once iff a button was released. |
| `Firmware.PowerOn` | firmware/Src/logic.c:243-252 | Boot adopts the loaded configuration and writes what loading writes. The system invariant holds. |
| `Firmware.Step` | firmware/Src/logic.c:416-430 | Each main-loop step or interrupt preserves the system invariant: change flag clear, magics present, fan invariant, valid section index. It saves at most the current configuration. |
| `Firmware.RunKeepsInv` | firmware/Src/logic.c:353-430 | Over any interleaving of steps and interrupts the invariant holds, and every record written to flash reloads verbatim. |
| `Firmware.Reachable` | firmware/Src/logic.c:243-430 | From power-on, every reachable state satisfies the invariant, and every saved record is adopted unchanged at the next boot. |

## Left out

- ADC and DMA sampling, and the float conversions `__conv_temp` and `__get_light` (logic.c:254-292), including the busy-wait on the DMA flag. Temperatures and the light level are `uint8` inputs of each step, so a hung conversion is not modelled.
- `logic_init_selfcheck` (logic.c:294-351). It is a delay-driven demonstration sequence of calls that are modelled individually.
- The HAL callbacks (logic.c:416-430) are the choice of `Firmware.Event`. Pin and timer-instance checks are not modelled.
- GPIO port/pin writes, `HAL_TIM_Base_Init`/`DeInit` and the halfword casting of the flash record become state fields, a timer period and a four-field record. The flash write status is ignored, as the code only logs it.
- Logging, `volatile`, and interrupt preemption. Every handler and every `logic_update` is one atomic step, so a refresh tick can never observe a half-written display update.
- The hardware configuration of the delay timer before the first phase-mode `set_power` is a parameter of `FanDriver.Init`. The reset levels of the display lines are a parameter of `VfdDriver.Init`. The heartbeat LED starts low.
- `tempToogle` is a `bool`. In the code it is a `uint8` that starts at 0 and is only ever XORed with 1.
- `Firmware.Step` lets the delay-timer expiry happen in any state, even when the timer is not armed. This over-approximates the hardware, which raises it only when armed. The invariants are proved for this larger set of traces.
- The main program that calls the init functions and loops on `logic_update` is not part of this model.
- `Controller.SideBySide`, `Controller.DisplayTemp`, `Controller.FiveSecondTask`: state the shown readings modulo 100. That is the reading itself under their < 100 guard, and the model does not restate it without the modulus.
