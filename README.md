# Greenhouse controller: a Dafny model

The firmware is a greenhouse monitor and pump controller for an LPC17xx board running the RTX kernel. `main.c` holds all of it:
- a sensor thread samples three 12-bit ADC channels (temperature, soil moisture, light);
- a telemetry thread sends `TEMP:<t>|MOIST:<m>|LIGHT:<l>\n` over UART0;
- for each actuator (heater, sprinkler, light), a monitor thread compares its reading with a threshold and wakes a controller thread, which re-checks and pulses the actuator's GPIO line on and then off;
- a receive thread accumulates serial bytes into 64-byte lines and drives the lines from `CMD:` commands;
- an operator console on the GLCD and the five-way joystick offers a main menu, a sensor view, a manual actuator-control screen and three threshold-adjust screens. Each screen except the menu has debounced rising-edge input.

The model has one module per concern:
- `Board` (`board.dfy`): pin masks, `readJoystick`, the ADC result field, the three output lines as `Outputs`, `toggle_gpio`, and the `OutputPort` class, whose fields are the levels the port drives.
- `Debounce` (`debounce.dfy`): `currentTime - last_action_time` on `uint32_t`, with wrap-around, and the rising-edge and window gate every screen applies.
- `Thresholds` (`thresholds.dfy`): the reset values, the clamped ±10 steps, the monitor/controller trigger conditions and the controller's pulse.
- `Telemetry` (`telemetry.dfy`): the `sprintf` format of the telemetry line, with a parser that splits it on `|` and `:` to prove the line carries the three readings.
- `CommandChannel` (`command.dfy`): the C-string view of the receive buffer and the six token tests. It holds the line accumulator as a pure fold (`Feed`/`FeedAll`) and as the `LineReceiver` class, which has the real 64-byte `array` buffer and index.
- `Console` (`console.dfy`): one pass of each screen's loop as a pure step function, and the screen machine `ConsoleStep`/`RunFrom` that strings the passes together over joystick samples. It also holds the invariants the machine keeps. The display is modelled as which rows a pass repaints, plus a small "picture" model of what the rows show. With it the model proves that the menu's differential redraw always leaves exactly the selected row highlighted, and that the actuator screen's does too except in a pass that both moves and toggles.
- `Firmware` (`firmware.dfy`): the `Greenhouse` class, whose fields are the globals of `main.c` and the `first_call` statics, and which owns the `OutputPort`. Its methods are the thread passes and the screen functions with their `while` loops. Each is proved against the pure functions above.

Conventions of the model:
- A C `char` received from the UART is an unsigned byte (`Board.byte`, 0..255).
- Readings and thresholds are mathematical integers. The values they can take (0..5000) are far from the 32-bit `int` limits, and `StepsKeepReachable` proves they stay there.
- "Ticks" are `osKernelSysTick()` values, as `Board.uint32`, and elapsed time is computed modulo 2^32 as the source does. `osDelay` arguments are milliseconds, a different unit, and the model calls them that.
- A joystick sample is `Sample(joystick, tick)`: one `readJoystick()` result together with the `osKernelSysTick()` value read beside it.

Behaviours of `main.c` a reader might not expect, which the model keeps as written:
- The sprinkler threshold starts at 5000, outside the 12-bit range, so the model's threshold invariant is [0, 5000]. Only thresholds already inside [0, 4095] are proved to stay there (`RunKeepsAdcRange`).
- The debounce test is `>=`, not `>`: an action exactly 100 ticks after the last one is accepted.
- The main menu does no edge detection and no debounce. It acts on the raw joystick mask on every pass, so a held direction repeats (`MenuHeldDownRepeats`), and a held Center re-opens a screen right after leaving it (`HeldCenterReopensScreen`).
- On the actuator screen, a pass that accepts Up or Down together with Left or Right repaints only the newly selected row (the toggle branch comes first, main.c:359-369), so the previously selected row stays highlighted until a later redraw (`ActuatorMoveWithToggleLeavesStaleRow`).

## Model

| member | source | states |
|---|---|---|
| Board.ReadJoystick | main.c:85-93 | the result has only bits 0..4, and each bit is set exactly when its active-low pin (lines 8-12) reads 0 |
| Board.ReleasedJoystickReadsZero | main.c:85-93 | with every joystick pin high the mask is 0 |
| Board.AdcResult | main.c:115 | the extracted reading is in [0, 4095] |
| Board.AdcResultIgnoresOtherBits | main.c:115 | only bits 4..15 of ADGDR decide the reading |
| Board.AdcResultOfField | main.c:115 | a 12-bit value placed in bits 4..15 is read back unchanged, whatever the other bits hold |
| Board.ActuatorIndex | main.c:462-486 | the index of each actuator is in 0..2 |
| Board.ActuatorAt | main.c:462-486 | the actuator at index i has index i (the inverse of ActuatorIndex) |
| Board.Outputs.Set | main.c:157-159 | writing one line sets that actuator to the given level and leaves the other two as they were |
| Board.OutputsExtensional | main.c:462-486 | two output states that agree on every actuator are equal |
| Board.Toggle | main.c:462-486 | the actuator with the given index is inverted and every other one is kept; an index outside 0..2 changes nothing |
| Board.ToggleOutOfRange | main.c:462-486 | the switch has no case for an index outside 0..2, so the outputs are unchanged |
| Board.ToggleTwice | main.c:462-486 | toggling the same index twice restores the outputs |
| Board.OutputPort.constructor | main.c:74-77 | the three actuator lines, configured as outputs, start low |
| Board.OutputPort.Drive | main.c:157-159 | an FIOSET/FIOCLR write changes exactly one actuator's line |
| Board.OutputPort.ToggleGpio | main.c:462-486 | the port's new state is Toggle of its old state: the line is read back and driven to the other level |
| Debounce.Elapsed | main.c:325 | `last + elapsed == now` modulo 2^32: unsigned subtraction across a counter wrap |
| Debounce.GateOpen | main.c:325 | definition: at least 100 ticks (DEBOUNCE_TIME, line 66) have elapsed since the last accepted action; GateOpensAfterWindow states when that holds |
| Debounce.RisingEdge | main.c:329 | definition: the mask's bits are set in the current sample and clear in the previous one (the tests at lines 329, 335, 341 and 347) |
| Debounce.Accepts | main.c:325-347 | definition: an action on a mask fires when the gate is open and the mask has a rising edge |
| Debounce.GateOpensAfterWindow | main.c:325 | d ticks after an action (d < 2^32) the gate is open exactly when d >= 100, also across a wrap of the tick counter |
| Thresholds.StepUp | main.c:513-516 | +10 capped at 4095: exactly v+10 when that is at most 4095, and exactly 4095 otherwise |
| Thresholds.StepDown | main.c:525-528 | -10 floored at 0: exactly v-10 when that is non-negative, and exactly 0 otherwise |
| Thresholds.StepsKeepAdcRange | main.c:513-536 | either step keeps a value in [0, 4095] |
| Thresholds.StepsKeepReachable | main.c:54-56 | either step keeps a value in [0, 5000] (the range the reset values start in) |
| Thresholds.StepDownTimesValue | main.c:525-528 | k accepted Down steps from v >= 0 give max(v - 10k, 0) |
| Thresholds.SprinklerResetNeedsNinetyOneDowns | main.c:55 | from the sprinkler's reset value 5000, Down alone reaches the 12-bit range exactly after 91 or more steps |
| Thresholds.SprinklerResetUpCaps | main.c:55 | 5000 is out of range; one Down gives 4990 and one Up gives 4095 |
| Thresholds.UpThenDown | main.c:513-536 | Up then Down in one sample restores v, except within 10 of the cap, where it gives 4085 |
| Thresholds.Limits.Set | main.c:514 | writing one threshold global changes only that one |
| Thresholds.LimitsSetSame | main.c:514 | writing a threshold's own value back changes nothing |
| Thresholds.LimitsSetTwice | main.c:514-527 | a second write to the same threshold overrides the first |
| Thresholds.Triggers | main.c:144 | definition: the heater triggers when the temperature reading is at or above its threshold, the sprinkler and the light when moisture or light is at or below theirs (lines 169 and 193); TriggersMonotone and SprinklerAlwaysDueAtReset state its properties |
| Thresholds.AfterPulse | main.c:157-159 | definition: the outputs after a controller wake-up, the pulse's off state or the outputs unchanged; PulseEndsOff states the result |
| Thresholds.TriggersMonotone | main.c:144 | a warmer reading still triggers the heater; a drier or darker reading still triggers the sprinkler or the light (lines 169 and 193) |
| Thresholds.SprinklerAlwaysDueAtReset | main.c:169 | at the reset threshold 5000 every 12-bit moisture reading triggers the sprinkler |
| Thresholds.ControllerPulse | main.c:152-163 | a pulse happens exactly when the re-check holds; it drives this actuator on, for its own duration (`osDelay` of 500, 600 or 700 milliseconds, lines 58-60), then off, and leaves the other lines alone |
| Thresholds.PulseEndsOff | main.c:156-160 | after a pulse the actuator is off and the others are unchanged, even if a command had switched it on |
| Thresholds.HeaterScenario | main.c:156-159 | reading 1650 against threshold 1600 pulses the heater for `osDelay(500)` |
| Thresholds.SprinklerScenario | main.c:181-184 | moisture 4000 against threshold 5000 pulses the sprinkler |
| Telemetry.DigitChar | main.c:134 | a digit value maps to a digit character |
| Telemetry.DigitValue | main.c:134 | a digit character maps to a value in 0..9 |
| Telemetry.DigitRoundTrip | main.c:134 | DigitValue undoes DigitChar on 0..9 |
| Telemetry.DigitValueRoundTrip | main.c:134 | DigitChar undoes DigitValue on a digit character, so with DigitRoundTrip the two are inverse |
| Telemetry.Decimal | main.c:134 | `%d` of a non-negative value is a non-empty digit string with no leading zero |
| Telemetry.DecimalRoundTrip | main.c:134 | the digit string's value is the printed number |
| Telemetry.DecimalLength | main.c:134 | a 12-bit reading prints in at most four digits |
| Telemetry.Field | main.c:134 | definition: one `name:%d` field; ParseFieldOf and FieldHasNoBar state its properties |
| Telemetry.TelemetryLine | main.c:134 | definition: the three fields joined by bars and ended by a newline; TelemetryRoundTrip and TelemetryLineFitsBuffer state its properties |
| Telemetry.TelemetryLineFitsBuffer | main.c:131-134 | for 12-bit readings the line plus its NUL fits the 64-byte buffer (at most 32 characters) |
| Telemetry.DecimalHasNoSeparators | main.c:134 | a printed number contains no colon, bar or newline |
| Telemetry.ParseFieldOf | main.c:134 | a `name:%d` field parses back to its value |
| Telemetry.FieldHasNoBar | main.c:134 | a field contains no bar character |
| Telemetry.ParseJoinedFields | main.c:134 | three fields that parse, joined by bars and ended by a newline, parse to their three values |
| Telemetry.TelemetryRoundTrip | main.c:134 | parsing the formatted line gives exactly (temp, moist, light) |
| CommandChannel.CString | main.c:221-222 | the C string is the prefix before the first NUL byte |
| CommandChannel.CStringStopsAtNul | main.c:221 | a NUL at k hides every byte from k on |
| CommandChannel.Text | main.c:219 | the line's characters have the values of its bytes |
| CommandChannel.Ascii | main.c:219 | Ascii is the inverse of Text on 8-bit strings |
| CommandChannel.Resolve | main.c:222-228 | definition of one actuator's level after a line; CommandTokenPrecedence and NonCommandChangesNothing state its cases |
| CommandChannel.IsCommand | main.c:222 | definition: the C string in the buffer starts with `CMD:`, through the helper `StartsWith` (the `strncmp` test: the string begins with the prefix); each token test of Resolve uses the helper `Contains` (the `strstr` test: the token occurs at some position), and MissingCharNotContained states a case of it |
| CommandChannel.Interpret | main.c:221-228 | definition: a completed line interpreted as the C string the buffer holds; InterpretStopsAtNul and NonCommandChangesNothing state its properties |
| CommandChannel.InterpretText | main.c:222-228 | each actuator's new level is decided by its own ON and OFF tokens |
| CommandChannel.NonCommandChangesNothing | main.c:222 | a line without the `CMD:` prefix leaves every output unchanged |
| CommandChannel.CommandTokenPrecedence | main.c:222-228 | on a command line the OFF token wins over the ON token (its test runs later), ON alone sets the line, and with neither the line keeps its level |
| CommandChannel.InterpretStopsAtNul | main.c:221-228 | bytes after a received NUL take no part in the command |
| CommandChannel.Feed | main.c:219-232 | one byte keeps the stored line at 63 bytes or fewer, and either ends the line (the stored bytes become empty) or leaves every output as it was |
| CommandChannel.FeedAll | main.c:217-235 | definition: the receive loop's bytes fed in order; FeedAllKeepsBound, FeedAllAccumulates, OverlongLineTruncated and LineThenNewline state its properties |
| CommandChannel.FeedAllKeepsBound | main.c:220-231 | the stored line never exceeds 63 bytes, whatever arrives |
| CommandChannel.FeedAppends | main.c:230-231 | a byte that does not end the line is appended and changes no output |
| CommandChannel.FeedAllAccumulates | main.c:230-231 | up to 63 non-newline bytes are stored in order and change no output |
| CommandChannel.OverlongLineTruncated | main.c:220-221 | after 63 stored bytes, the next byte (whatever it is) ends the line, is dropped, and the 63 bytes are interpreted |
| CommandChannel.LineThenNewline | main.c:220-228 | a newline after at most 63 bytes interprets them, is not stored, and resets the index to 0 |
| CommandChannel.CStringWithoutNul | main.c:221-222 | a line without NUL bytes is its own C string |
| CommandChannel.MissingCharNotContained | main.c:223-228 | a token that contains a character the line lacks is not found |
| CommandChannel.InterpretAscii | main.c:219-228 | a NUL-free 8-bit line received as bytes drives what its text says |
| CommandChannel.LightOnText | main.c:225-226 | `CMD:LIGHT:ON` sets the light and nothing else |
| CommandChannel.LightOffText | main.c:225-226 | `CMD:LIGHT:OFF` clears the light and nothing else (the ON test does not match it) |
| CommandChannel.FeedTextLine | main.c:218-231 | a short 8-bit line received byte by byte and ended by a newline drives exactly what its text says |
| CommandChannel.LightOnScenario | main.c:218-231 | `CMD:LIGHT:ON\n` received byte by byte switches the light on and nothing else |
| CommandChannel.LightOffScenario | main.c:218-231 | `CMD:LIGHT:OFF\n` switches the light off and nothing else |
| CommandChannel.HelloScenario | main.c:222 | a line without the prefix changes nothing |
| CommandChannel.LineReceiver.constructor | main.c:215-216 | an empty buffer of 64 bytes with index 0 |
| CommandChannel.LineReceiver.Execute | main.c:222-228 | the six token tests, in source order, leave the port in the state InterpretText describes |
| CommandChannel.LineReceiver.Receive | main.c:219-232 | one byte updates the buffer, the index and the port exactly as Feed does, and keeps the index in [0, 63] |
| CommandChannel.LineReceiver.ReceiveAll | main.c:217-235 | the receive loop over a byte sequence ends in the state FeedAll gives |
| Console.EntryAt | main.c:710-730 | entry 0 opens the sensor view, 1 actuator control, 2..4 the heater, sprinkler and light threshold screens; entry 5 (and any other index) opens none |
| Console.MenuStep | main.c:694-731 | the index stays in [0, 5] and moves by at most one; `updated` holds exactly when it moved; a dispatch leaves it unchanged and happens only on Center when neither Up (above entry 0) nor Down (below entry 5) applies |
| Console.MenuUpTakesPrecedence | main.c:703-705 | Up above entry 0 wins over Down and Center in the same sample |
| Console.MenuDownWhenUpBlocked | main.c:703-708 | Up at entry 0 is ignored, so a Down in the same sample moves to entry 1 |
| Console.MenuDownUnlessUp | main.c:703-708 | when Up does not apply, Down below entry 5 moves down one entry, whatever else is pressed |
| Console.MenuIgnoresOtherDirections | main.c:703-709 | a mask with none of Up, Down and Center (Left or Right alone, or nothing) changes nothing |
| Console.MenuCenterDispatch | main.c:697-731 | Center dispatches the selected entry; entry 5 and an empty mask change nothing |
| Console.MenuHeldDownRepeats | main.c:706-708 | a held Down moves one entry per pass until entry 5 (no edge detection) |
| Console.MenuHeldUpRepeats | main.c:703-705 | a held Up moves one entry per pass until entry 0 |
| Console.MenuRepaint | main.c:251-278 | definition of Menu_Display's repaint choice; MenuRepaintIsExact and MenuRepaintIsMinimal state what it achieves |
| Console.MenuRepaintIsExact | main.c:251-278 | after Menu_Display, exactly the selected row is highlighted, whether it repainted fully or only the two changed rows |
| Console.MenuRepaintIsMinimal | main.c:264-278 | the differential redraw repaints exactly the rows whose highlight changes |
| Console.MoveSelection | main.c:329-340 | no edge keeps both indices; Up alone gives (sel, max(sel-1, 0)); Down alone gives (sel, min(sel+1, 2)); both apply Up first, then Down from there; the selection stays in 0..2 |
| Console.ActuatorStep | main.c:320-395 | the new (previous, selected) pair is MoveSelection of the accepted Up and Down edges; the two indices stay in range; the outputs are toggled at the (already moved) selection exactly when a Left/Right edge is accepted; the screen exits exactly on an accepted Center edge |
| Console.ActuatorStepOpenGate | main.c:325-393 | with the window passed: the new selection, the previous sample (kept on a Center exit), last_action_time, the toggled outputs and the exit flag of one pass |
| Console.ActuatorGateClosed | main.c:325-393 | inside the debounce window a pass changes nothing but the previous sample, which it overwrites: outputs, selection and last_action_time are kept, nothing is repainted and the screen does not exit |
| Console.ActuatorStepRepaint | main.c:353-391 | the whole screen on exit; otherwise the selected row alone after a toggle, the old and new rows after a move (the new one alone when there was no old one), and nothing otherwise |
| Console.ActuatorEdgeInsideWindowIsDropped | main.c:325-351 | a second Left edge within 100 ticks of an accepted one is dropped, and it is not taken later while held, so the line is toggled once |
| Console.ActuatorStepRecordsAction | main.c:325-351 | last_action_time moves to the sample's tick exactly when Up, Down, Left/Right or Center is accepted |
| Console.ActuatorSelectionSaturates | main.c:329-340 | Up at the top row and Down at the bottom row leave the selection where it is |
| Console.ActuatorLeftRightShareEdge | main.c:341 | Left and Right share one edge detector, so pressing one while the other is held toggles nothing |
| Console.ActuatorToggleOnlySelected | main.c:341-346 | a toggle changes only the selected actuator's line |
| Console.ActuatorRepaintIsExact | main.c:354-391 | without a toggle in a move pass, the redraw leaves exactly the selected row highlighted, and every row shows its actuator's current level |
| Console.ActuatorMoveWithToggleLeavesStaleRow | main.c:359-369 | a move and a toggle in one pass repaint only the new row, so the old row keeps its highlight |
| Console.ThresholdStep | main.c:508-544 | the new value is StepUp if an Up edge is accepted, then StepDown of that if a Down edge is accepted, and otherwise unchanged; it stays in [0, 4095] and in [0, 5000]; the screen exits exactly on an accepted Center edge; last_action_time moves to now exactly when Up, Down or Center is accepted |
| Console.ThresholdStepOpenGate | main.c:512-542 | with the window passed: the new previous sample (kept on a Center exit), last_action_time and the exit flag of one pass |
| Console.ThresholdStepRepaint | main.c:512-542 | the whole screen on exit, the value's text line after an accepted Up or Down, nothing otherwise |
| Console.ThresholdUpThenDown | main.c:513-536 | Up and Down accepted in one sample both apply, Up first |
| Console.ThresholdGateClosed | main.c:512-542 | inside the debounce window a pass only records the sample |
| Console.EdgeInsideWindowIsDropped | main.c:512-524 | a second Up edge within 100 ticks of an accepted one is dropped, and it is not taken later while the button stays held |
| Console.EdgesAWindowApartBothCount | main.c:512-524 | two Up edges 100 or more ticks apart both step the value |
| Console.SensorStep | main.c:420-454 | the view exits exactly on an accepted Center edge, and then last_action_time is now; otherwise it repaints its six rows and records the sample |
| Console.Enter | main.c:709-725 | definition: opening a screen gives it fresh loop locals (lines 286-290, 413-414, 491-492) and paints it in full, except actuator control, which paints only while its first_call is set (lines 293-318) |
| Console.ReturnToMenu | main.c:397-402 | definition: leaving a screen clears the flags as Menu_Display(-1) does and brings last_menu up to date (lines 733-736) |
| Console.MenuPass | main.c:694-736 | definition of one main-menu pass; MenuStep, FirstDownRepaintsTwoRows and ConsoleStepKeepsValid state its properties |
| Console.ConsoleStep | main.c:693-739 | definition: one sample consumed by the open screen; ConsoleStepKeepsValid and ConsoleStepKeepsAdcRange state its invariants |
| Console.RunFrom | main.c:693-739 | definition: the samples consumed in order; RunKeepsValid, RunKeepsAdcRange and RunFromSplit state its properties, and MenuThread is proved equal to it |
| Console.RunFromSplit | main.c:693-739 | running a prefix of the samples and then the rest is running them all |
| Console.StartIsValid | main.c:686-692 | the console state after the first menu draw satisfies the invariant |
| Console.ConsoleStepKeepsValid | main.c:693-739 | every pass of any screen keeps the invariant (indices in range, last_menu in step, the menu drawn once, actuator_control's first_call set exactly while that screen is closed, thresholds in [0, 5000]) |
| Console.RunKeepsValid | main.c:693-739 | over any sample sequence the menu index stays in [0, 5] and the actuator index in [0, 2] |
| Console.ConsoleStepKeepsAdcRange | main.c:513-527 | a pass keeps thresholds that are in [0, 4095] inside it |
| Console.RunKeepsAdcRange | main.c:508-544 | thresholds in [0, 4095] stay inside it under any sequence of adjustments |
| Console.FirstDownRepaintsTwoRows | main.c:703-736 | from start-up, one Down moves to entry 1 and repaints rows 0 and 1 only |
| Console.HeldCenterReopensScreen | main.c:697-713 | with Center held on the sensor entry, the view opens, closes on its first sample past tick 100, and the next menu pass opens it again |
| Console.RunSensors | main.c:420-454 | the loop consumes at most all samples, at least one when it exits, and all of them when it does not |
| Console.RunActuators | main.c:320-395 | as RunSensors, and both indices stay in range |
| Console.RunThreshold | main.c:508-544 | as RunSensors, and the value stays in [0, 4095] and in [0, 5000] |
| Console.RunActuatorsAt | main.c:320-395 | one more sample of an open actuator screen unfolds as one ActuatorStep |
| Console.RunThresholdAt | main.c:508-544 | one more sample of an open threshold screen unfolds as one ThresholdStep |
| Console.RunSensorsIsRunFrom | main.c:405-460 | the sensor view's loop, followed by the return to the menu, is the screen machine while the view is open |
| Console.RunActuatorsIsRunFrom | main.c:284-403 | the actuator loop, followed by the return to the menu, is the screen machine while that screen is open |
| Console.RunThresholdIsRunFrom | main.c:488-552 | an adjust-threshold loop, followed by the return to the menu, is the screen machine while that screen is open |
| Firmware.Greenhouse.constructor | main.c:53-62 | readings 0, thresholds 1600/5000/4091, menu index 0, both first_call statics set, every line low |
| Firmware.Greenhouse.SampleSensors | main.c:119-125 | each reading becomes the ADC result field of its channel's register, and nothing else changes |
| Firmware.Greenhouse.FormatTelemetry | main.c:130-136 | for 12-bit readings, the line parses back to the three current readings, ends in a newline and fits the 64-byte buffer |
| Firmware.Greenhouse.Monitor | main.c:141-212 | a monitor releases its semaphore exactly when its trigger holds; the sprinkler's always does at the reset threshold |
| Firmware.Greenhouse.Control | main.c:152-212 | the port goes through the controller pulse (on, then off) exactly when the re-check holds, and is otherwise untouched |
| Firmware.Greenhouse.MenuDisplay | main.c:238-282 | the repaint is the full/differential/none choice, first_call is cleared, and nothing else changes |
| Firmware.Greenhouse.SetThreshold | main.c:514 | one threshold global is written and nothing else changes |
| Firmware.Greenhouse.SensorLoopRun | main.c:420-454 | the loop's result is RunSensors from fresh locals |
| Firmware.Greenhouse.ShowSensors | main.c:405-460 | as SensorLoopRun; on exit the menu is redrawn with Menu_Display(-1) |
| Firmware.Greenhouse.MoveActuatorSelection | main.c:329-340 | the Up and Down branches give the pair MoveSelection describes |
| Firmware.Greenhouse.ActuatorPass | main.c:321-394 | one loop body leaves the locals and the port as ActuatorStep says |
| Firmware.Greenhouse.ActuatorLoopRun | main.c:320-395 | the loop's result and the port are RunActuators from the entry locals |
| Firmware.Greenhouse.ActuatorControl | main.c:284-403 | as ActuatorLoopRun; first_call is set again exactly when the screen was left, and then the menu is redrawn |
| Firmware.Greenhouse.ThresholdPass | main.c:509-543 | one loop body writes the global and leaves the gate as ThresholdStep says |
| Firmware.Greenhouse.AdjustThreshold | main.c:488-684 | only the edited threshold changes, to the value RunThreshold gives; on exit the menu is redrawn |
| Firmware.Greenhouse.OpenScreen | main.c:709-731 | the dispatched screen function does what the screen machine does from Enter until it returns to the menu |
| Firmware.Greenhouse.MenuThreadPass | main.c:693-739 | one Menu_Thread pass, with any screen it opens, is a stretch of RunFrom over the samples |
| Firmware.Greenhouse.MenuThread | main.c:686-740 | Menu_Thread over a sample sequence ends in the state RunFrom gives from the first menu draw, keeps the readings, and keeps the object invariant (readings 12-bit, thresholds in [0, 5000], menu index in [0, 5]), as do all the screen methods |

## Left out

- The threshold screens write the threshold globals without taking `adc_mutex` (lines 513-528), in two statements: the step, then the clamp. Between them a monitor thread can read a transient value outside [0, 4095], such as 4100 or -5. The model treats each pass as atomic, so it does not show that value.
- Concurrency: the threads, `adc_mutex`, `glcd_mutex` and the three semaphores (lines 121-125, 143-147, 154-161, 249, 281, 767-771). Each thread pass is modelled as an atomic step. The semaphore count of at most 1 and the holding of `adc_mutex` during a pulse (lines 155-161) are kernel scheduling matters outside a sequential model.
- The command channel and the controller threads drive the same output lines as the actuator screen, concurrently. The screen machine (`Console.RunFrom`) covers only the console's own effects on the outputs.
- Controller pulses are recorded as (on state, duration, off state) in `Thresholds.Pulse`. The `osDelay` between them is not simulated, and every other `osDelay` and the tick source are inputs (`Sample.tick`).
- Register set-up and busy-waiting: `ADC_Init`, `GPIO_Init`, `GPIO_Joystick_Init`, `UART0_Init`, the polling in `Read_ADC` and `UART0_SendString`, and the UART status check (lines 68-117 except line 115, and line 218). The ADC registers become parameters of `SampleSensors`.
- The display: fonts, colours, coordinates and the characters drawn. The model keeps only which rows a pass repaints, and which row is highlighted with which ON/OFF level. The sensor view's text, the threshold screens' "Threshold: %d" text and the static hints are not modelled. Nor is the status LED on P1.28, which line 75 configures and nothing drives.
- `sprintf` is modelled only for the `%d` of non-negative values that the telemetry line uses. The kernel API headers and `RTE/_Target_1/RTE_Components.h` contain no logic.
- A screen's loop ends only on an accepted Center edge, which need not ever come, and `Menu_Thread`'s loop never ends. The model runs them over a finite sequence of joystick samples and stops when the samples run out.
- For the first draw of actuator_control (lines 293-318), the model records only whether the screen is painted in full (`Full`) or not at all (`NOTHING`). The rows' text is not modelled.
