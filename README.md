# Debounced buttons and change detection of a MIDI knob controller

A model of the control logic of an Arduino sketch that reads knobs and push
buttons and reports knob changes over the serial port (its MIDI sends are
commented out). The buttons go through a timed
debounce filter (`read_button`). Each committed change is passed to
`button_value_changed`. That function advances a multiplexer selector (button 4)
or resets the `decay` knob (button 2). Every pass of `loop` writes the selector
to three select lines. A knob is reported only when its rounded value, shifted
right by a few bits, changes (`update_controller`).

Modules:

- `Bits` (bits.dfy): C's `>>`, `& (2^k - 1)` and `(x >> k) & 1` on two's-complement `int`s, read as floor division and remainder by 2^k.
- `Quantise` (quantise.dfy): the quantised change test of `update_controller`.
- `Debounce` (debounce.dfy): the debounce channel. It has a specification function `Step`, a `Button` class whose `Read` method is proved against `Step`, and `Replay` over a run of ticks with lemmas about stable, bouncing and held inputs.
- `Controller` (controller.dfy): `button_value_changed` as `React` and as the `Controller` class's method, and the select-line encoding with its round trips.
- `Panel` (panel.dfy): one pass of `loop` over the four buttons.
- `AvrTime` (avr_time.dfy): `read_button` with 16-bit `int` storage of `millis()`, as compiled for AVR. See Findings.

Two facts about the code that the model keeps exactly:

- A reading is committed only when `millis() - last_read_time` is strictly greater than 50 (test.c:87, as the comment at test.c:88-89 says). A reading that has been stable for exactly 50 ms is not committed yet.
- The selector is advanced by `BUTTON_4_PIN`, which is pin 8. `decay` is reset by `BUTTON_2_PIN`, which is pin 4. `BUTTON_1_PIN` (pin 2) and button 3 (pin 7) do nothing.

## Model

| member | source | states |
|---|---|---|
| `Bits.Shr` | test.c:49-53 | `x >> k` is the quotient q with q·2^k <= x < (q+1)·2^k |
| `Bits.LowBits` | test.c:119 | `x & (2^k - 1)` lies in [0, 2^k) and is what remains of x once `(x >> k) << k` is taken away |
| `Bits.Bit` | test.c:154-156 | `(x >> k) & 1` is 0 or 1, and is the bit dropped when `x >> k` is shifted once more |
| `Bits.ShrOneMore` | test.c:49 | shifting right by k+1 bits equals shifting by k bits and then by one more, so `Shr` is C's arithmetic shift done bit by bit |
| `Bits.ShrMonotone` | test.c:49-53 | the shifted value is monotone in the value shifted |
| `Quantise.Report` | test.c:49-54 | an unchanged value is never reported; a reported value is the block of the new value, and differs from the old value's quantised value |
| `Quantise.QuietIffSameHighBits` | test.c:49-54 | no report iff old and new agree once their low `shift` bits are masked off |
| `Quantise.ReportedIsNewBlock` | test.c:53-61 | a reported value v places the new value in [v·2^shift, (v+1)·2^shift) and the old value outside that block |
| `Quantise.ShiftZeroReportsEveryChange` | test.c:49-54 | with shift 0 every change is reported with the new value itself, and equal values are never reported |
| `Quantise.ReportFollowsDirection` | test.c:49-54 | a report after a rise is above the old quantised value, after a fall below it |
| `Quantise.SmallChangeMovesOneStep` | test.c:49-54 | a change smaller than 2^shift that is reported moves the quantised value by exactly one |
| `Debounce.Step` | test.c:73-99 | the raw value becomes the reading; the timer restarts iff the reading changed; it fires iff the debounced value changes, and that happens iff the reading equals the previous raw value, differs from the debounced one and more than 50 ms have passed; a new reading is never committed in the call that first sees it |
| `Debounce.StepIdempotent` | test.c:82-98 | a second call at the same instant with the same reading fires nothing and changes nothing |
| `Debounce.SettledIsFixpoint` | test.c:82-98 | a button whose raw and debounced values equal the reading is left unchanged and silent at any time |
| `Debounce.Replay` | test.c:149-152 | over a run of ticks, at most one notification per tick, and the raw value ends at the last reading |
| `Debounce.WithinWindowNoCommit` | test.c:82-96 | while every tick is within 50 ms of a time no later than the last timer restart, nothing is committed, whatever the readings |
| `Debounce.BounceIgnored` | test.c:82-96 | a raw transition followed only by ticks within 50 ms of it never changes the debounced value, even if the input bounces |
| `Debounce.StableReadingFiresAtMostOnce` | test.c:87-95 | under a constant reading the notification fires at most once, and if it fires the debounced value is that reading |
| `Debounce.SettledRunFiresNothing` | test.c:82-98 | once raw and debounced values equal a constant reading, a run changes nothing and fires nothing |
| `Debounce.HeldReadingCommitsOnce` | test.c:82-98 | a raw value held against a different debounced value is committed exactly once when some tick is more than 50 ms after the last timer restart |
| `Debounce.HeldTransitionFiresOnce` | test.c:82-98 | a transition to a new level, held until a tick more than 50 ms later, fires exactly once and ends debounced at that level |
| `Debounce.Button.Read` | test.c:73-99 | `read_button` on the button's three variables: new state and the fired flag are those of `Step` |
| `Debounce.Button.constructor` | test.c:20-37 | a button starts with raw value, debounced value and timer 0 |
| `Controller.NextSelect` | test.c:119 | `(mplex_select + 1) & 7` lies in 0..7 and, from 0..7, is the next input with 7 wrapping to 0 |
| `Controller.React` | test.c:107-124 | a nonzero value or another pin changes nothing; a 0 on button 2 only sets `decay` to 0; a 0 on button 4 only sets the selector to `(mplex_select + 1) & 7`; a selector in 0..7 stays there |
| `Controller.Presses` | test.c:117-122 | n presses of button 4 through `React` from reset keep the selector in 0..7 and `decay` at 0 |
| `Controller.PressesCycle` | test.c:117-122 | after n presses of button 4 from reset, passed through `React`, the selector is n mod 8 and `decay` is 0 |
| `Controller.LevelOf` | test.c:154-156 | `bit ? HIGH : LOW`: a bit of 0 or 1 is written as the level of that weight |
| `Controller.Lines` | test.c:154-156 | for any selector, the three lines written encode its low three bits, `mplex_select & 7` |
| `Controller.LinesRoundTrip` | test.c:154-156 | for a selector in 0..7 the three select lines encode exactly that selector |
| `Controller.SelectedRoundTrip` | test.c:154-156 | each combination of the three lines is the one written for the selector it encodes |
| `Controller.Controller.ButtonValueChanged` | test.c:101-125 | the globals after the call are `React` of those before, and the selector stays in 0..7 |
| `Controller.Controller.constructor` | test.c:5-16 | `mplex_select` and `decay` start at 0 |
| `Panel.Notify` | test.c:92-95 | a tick that did not fire leaves the controller alone, and the selector stays in 0..7 |
| `Panel.Panel.Poll` | test.c:149-152 | a button's new state is `Step` of its old state, and the controller receives the notification with the new debounced value and the button's pin when the tick fires |
| `Panel.Panel.Tick` | test.c:146-159 | the four buttons are read in order, each notification reaching the controller before the next read, and the select lines then encode the selector |
| `Panel.Panel.constructor` | test.c:19-37 | four distinct buttons on pins 2, 4, 7 and 8, all at 0, and the controller at 0 |
| `AvrTime.ToInt16` | test.c:84 | the 16-bit `int` that `millis()` is stored as lies in [-32768, 32768) and differs from it by a multiple of 65536 |
| `AvrTime.ToULong` | test.c:87 | unsigned long arithmetic: the result lies in [0, 2^32), differs from the exact value by a multiple of 2^32, and is the exact value when that is in range |
| `AvrTime.StepAsWritten` | test.c:73-99 | read_button with 16-bit storage of `millis()`: the raw value becomes the reading, it fires exactly when the debounced value changes to the reading, and a restarted timer holds only the 16-bit image of `millis()` |
| `AvrTime.AsWrittenCommitsAtOnce` | test.c:21-87 | with 16-bit `int` storage, for `millis()` from 32 768 ms up to 2^32 − 32 768 ms (about 49.7 days) a raw change is committed in the call that sees it, where `Step` commits nothing |
| `AvrTime.AsWrittenPressAt40Seconds` | test.c:82-95 | a button at rest since reset (reading 1 under its pull-up) and pressed (reading 0) 40 s after reset is committed in the same tick as written, but not by `Step` |
| `AvrTime.AsWrittenAgreesEarly` | test.c:82-98 | before 32.768 s the code as written behaves exactly as `Step` |

## Findings

| source | as written | input that shows it | evidently intended | confidence | as-written member | corrected member |
|---|---|---|---|---|---|---|
| test.c:21-87 | `millis()` (32-bit unsigned long) is stored into the `int` `last_read_time`, which is 16 bits on AVR. The elapsed time `millis() - last_read_time` is then at least 65536 right after a reset, from 32.768 s of uptime until `millis()` nears its own 32-bit wrap-around. | a button at rest since reset (`last_read_time` 0, raw and debounced 1 under the pull-up) pressed, reading 0, at `millis()` = 40000: committed and notified in that same call | a changed reading is never committed in the call that first sees it, and is committed only after more than 50 ms of stability (`last_read_time` as wide as `millis()`) | medium: assumes a 16-bit `int` (AVR boards); not executed | `AvrTime.AsWrittenPressAt40Seconds` | `Debounce.Step` |

## Left out

- The exponential smoothing of `p_controller` and the float knob variables (test.c:1, 12-16, 40-45): floating-point numerics. `update_controller` is modelled only by its change test, on already rounded integer values; `round` is not modelled.
- `update_controllers` (test.c:64-70): each of its two `update_controller` calls smooths a knob and then runs the change test and prints the report. The change test is modelled on its own by `Quantise.Report`; it is not wired into `Panel.Panel.Tick`, which starts at the buttons.
- Hardware and serial I/O: `analogRead`, `digitalRead`, `digitalWrite`, `pinMode`, `Serial`, `delay`, `setup`. Pin readings and `millis()` are parameters of `Read` and `Tick`. The select-line levels are their result.
- `Debounce.Step`: both calls of `millis()` in one `read_button` (test.c:84, 87) are taken to return the same instant.
- `Panel.Panel.Tick`: one pass of `loop` is taken at a single instant `now`. The source reads `millis()` up to eight times per pass, in the four `read_button` calls (test.c:149-152).
- `Debounce.WithinWindowNoCommit`: the clock is taken to be monotone, and elapsed time is a signed difference. On a run where time went backwards the model commits nothing, where the unsigned `millis() - last_read_time` would wrap and commit. A monotone `millis()` never produces such a run.
- `Debounce.Step`: time is an unbounded integer. Apart from the 16-bit storage under Findings, the 32-bit wrap-around of `millis()` after about 49.7 days is not modelled.
- `Controller.React`: the selector increment is not modelled with 16-bit overflow; it cannot overflow, since the selector stays in 0..7.
- The `AnalogueInput` class, `send_midi_control`, `send_midi_note` and `reset_all_knobs` (midi_jomox_interface.h:4-33): declared only, with no bodies to model.
- The commented-out MIDI and print statements: they do not execute.
