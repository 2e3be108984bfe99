# Nixie calculator and clock: a verified model of the firmware core

The firmware runs a desk calculator and clock on nixie tubes. A keypad microcontroller
scans the key matrix and reports key events over a serial line. The main controller
decodes those events and routes them by device mode: calculator, clock or settings menu.
The calculator engine keeps operand registers, one pending operation, a memory register
and a sticky error state. A display handler lays the resulting text out on the tubes. A
display driver turns digits, decimal points and signs into shift-register bits through a
hardware layer for IN-12 or IN-17 tubes. A u-blox receiver, spoken to in the UBX binary
protocol, can set the clock.

This project models that core in Dafny, one module per source file:

- `NixieCalc` (`nixie_calc.dfy`) is the arithmetic engine `NixieCalc`. Its operations are
  pure functions over an engine state. The class's methods are proved equal to them, and
  the lemmas prove sticky errors, repeated equals, the percent rules and the overflow gate.
- `Calculator` (`calculator.dfy`) is the calculator front end. It covers the key switch,
  the typed entry buffer and the `doubleToString` formatting with its zero-stripping loops.
- `KeyboardDecoder` and `KeyboardHandler` cover the main board's view of the keypad. The
  first maps key codes to digits and operations, in two layers. The second reads serial
  frames and keeps the function-key latch.
- `KeyboardFirmware` (`keyboard_firmware.dfy`) is the keypad board's own firmware. It
  models the hold table of fixed size and the auto-repeat timing in `unsigned long`
  milliseconds.
- `DisplayHAL`, `DisplayHALIN12` and `DisplayHALIN17` are the register maps. For IN-12
  the lemmas prove that the lookup table is total and inverts the register assignment.
- `DisplayDriver` (`display_driver.dfy`) is the driver class. Its buffers are arrays, and
  `CommitToRegisters` is proved to emit exactly the bits the register map and the buffers
  call for.
- `DisplayHandler` (`display_handler.dfy`) is the scan of a display string from the
  right. It covers digits, decimal points, the double dot, and the minus and plus signs.
- `Setting` and `MenuHandler` are the settings store and the settings menu. They cover
  the cursor, value stepping, colour and time packing with their round trips, and
  commit, revert and reset.
- `UbGpsTime` (`ub_gps_time.dfy`) is the UBX receiver. It covers the Fletcher checksum,
  the byte-at-a-time frame parser with a proved frame round trip, little-endian field
  readers, frame dispatch and the request frames.
- `Gps` (`gps.dfy`) is the clock synchronisation. It merges the valid parts of a UTC
  record into the clock, with a long and a short retry interval.
- `Controller` (`controller.dfy`) is the device-mode supervisor. It covers mode switching
  and the menu round trip, the high-voltage gate, the backlight shortcut, event routing
  and auto-off.
- `ArduinoTypes` and `Wrappers` hold the fixed-width integer types with their
  wrap-around, C's truncating `/` and `%`, and `Option`.

Classes whose fields the firmware updates in place are Dafny classes. Each method's
`ensures` ties its new state to a pure function of the old state, and the properties are
proved about those functions as lemmas. Pure code is written as functions and lemmas.
Engine values are `real`, and the math library (`sqrt`, `pow`, the trigonometric
functions, the logarithms) is a record of function values handed in by the caller.

## Model

| member | source | states |
|---|---|---|
| NixieCalc.OperationOfCode | Software/Firmware/Controller/lib/NixieCalc/src/NixieCalc.h:20-48 | the enumerator whose `uint8_t` value is c has value c |
| NixieCalc.OperationIsClosedEnum | Software/Firmware/Controller/lib/NixieCalc/src/NixieCalc.h:20-48 | `operation` has exactly 26 values, numbered 0..25, each the enumerator of its own number; `none` (0) is the only "no pending operation" value |
| NixieCalc.Fact | Software/Firmware/Controller/lib/NixieCalc/src/NixieCalc.cpp:464-468 | the product 1 * 2 * .. * n is at least 1 |
| NixieCalc.Compute | Software/Firmware/Controller/lib/NixieCalc/src/NixieCalc.cpp:318-494 | only the dual and single-value operations are known; a zero divisor or the reciprocal of zero, and nothing else, reports division by zero; only a factorial above 20 reports overflow; exactly a negative square root, a non-positive log or ln, a tangent at an asymptote (abs(remainder(x, 360)) = 90 in degrees, a zero cosine in radians) and a non-natural factorial operand report a domain error, so every other known operation succeeds; any error leaves 0 |
| NixieCalc.Evaluate | Software/Firmware/Controller/lib/NixieCalc/src/NixieCalc.cpp:481-494 | `calculateValue`'s final gate: every error leaves 0 in the result, a success lies within -99999999999999..99999999999999, and success holds exactly when the operation itself succeeded inside that bound |
| NixieCalc.NumericInput | Software/Firmware/Controller/lib/NixieCalc/src/NixieCalc.cpp:42-59 | without an error the value is displayed as a number being entered, and after `=` a new calculation starts; in the error state nothing changes; memory, angle mode and return code are never touched |
| NixieCalc.DualValue | Software/Firmware/Controller/lib/NixieCalc/src/NixieCalc.cpp:134-163 | the new operation becomes the pending one with both entry flags cleared; only a number entered against a pending operation computes, its result displayed and made the left operand |
| NixieCalc.Operate | Software/Firmware/Controller/lib/NixieCalc/src/NixieCalc.cpp:62-131 | the angle mode never changes and memory changes only through a memory operation without an error; all-clear always clears the error, the pending operation and the display but keeps memory; in the error state everything else is ignored |
| NixieCalc.ErrorIgnoresInput | Software/Firmware/Controller/lib/NixieCalc/src/NixieCalc.cpp:42-131 | sticky error: with an error code, numeric input changes nothing and every operation other than all-clear changes nothing |
| NixieCalc.ErrorIsSticky | Software/Firmware/Controller/lib/NixieCalc/src/NixieCalc.cpp:42-131 | with an error code, any run of inputs that holds no all-clear leaves the whole state as it was |
| NixieCalc.AllClearRecovers | Software/Firmware/Controller/lib/NixieCalc/src/NixieCalc.cpp:306-315 | all-clear, in any state, zeroes display, left and right, sets the code to success, the operation to none and both flags to false, and keeps memory and angle mode |
| NixieCalc.MemoryOnlyChangedByMemoryOps | Software/Firmware/Controller/lib/NixieCalc/src/NixieCalc.cpp:212-240 | memory is a register of its own: no operation other than memclear, memstore, mem+ and mem- writes it |
| NixieCalc.MemReadIsNumericInput | Software/Firmware/Controller/lib/NixieCalc/src/NixieCalc.cpp:220-223 | memread is exactly numeric input of the memory value |
| NixieCalc.DualEvaluatesPending | Software/Firmware/Controller/lib/NixieCalc/src/NixieCalc.cpp:152-162 | a binary operation after a typed number with an operation pending evaluates (left, display) into display and left, takes the new operation and clears both flags |
| NixieCalc.DualReplacesOperator | Software/Firmware/Controller/lib/NixieCalc/src/NixieCalc.cpp:142-151 | without a new number a binary operation only replaces the pending one (and takes the display as left straight after equals) |
| NixieCalc.RepeatedEquals | Software/Firmware/Controller/lib/NixieCalc/src/NixieCalc.cpp:184-209 | x op y = evaluates (x, y) and keeps y as right; a second = evaluates (result, y) and moves the previous result into left |
| NixieCalc.FivePlusThreeEqualsEqualsEquals | Software/Firmware/Controller/lib/NixieCalc/src/NixieCalc.cpp:184-209 | `5 + 3 = = =` shows 8, 11 and 14 |
| NixieCalc.DivideByZeroExample | Software/Firmware/Controller/lib/NixieCalc/src/NixieCalc.cpp:338-348 | `7 / 0 =` reports divide-by-zero and shows 0 |
| NixieCalc.PercentWithoutPending | Software/Firmware/Controller/lib/NixieCalc/src/NixieCalc.cpp:277-283 | percent with nothing pending, or right after equals, divides the display by 100 and makes it the left operand |
| NixieCalc.PercentAfterOperator | Software/Firmware/Controller/lib/NixieCalc/src/NixieCalc.cpp:284-302 | percent after + or - is left * display / 100, after * or / display / 100, after pow nothing |
| NixieCalc.PercentExamples | Software/Firmware/Controller/lib/NixieCalc/src/NixieCalc.cpp:275-303 | `100 + 10 %` shows 10, `100 * 10 %` shows 0.1 and then `=` 10, `50 %` shows 0.5 |
| NixieCalc.FactMonotone | Software/Firmware/Controller/lib/NixieCalc/src/NixieCalc.cpp:464-468 | the factorial product grows with its operand |
| NixieCalc.FactorialSucceedsExactly | Software/Firmware/Controller/lib/NixieCalc/src/NixieCalc.cpp:454-475 | factorial succeeds exactly for the naturals 0..16; above 20 it is overflow, a non-natural up to 20 is domain |
| NixieCalc.FactAtBound | Software/Firmware/Controller/lib/NixieCalc/src/NixieCalc.h:15-17 | 16! lies within MAX_CALC_VALUE and 17! beyond it, so the ceiling of 20 is never what stops a factorial |
| NixieCalc.NixieCalc.constructor | Software/Firmware/Controller/lib/NixieCalc/src/NixieCalc.cpp:12-15 | the engine starts in degrees, in the all-clear state |
| NixieCalc.NixieCalc.SetAngleMode | Software/Firmware/Controller/lib/NixieCalc/src/NixieCalc.cpp:36-39 | only the angle mode changes |
| NixieCalc.NixieCalc.OnNumericInput | Software/Firmware/Controller/lib/NixieCalc/src/NixieCalc.cpp:42-59 | the new state is `NumericInput` of the old: ignored on error; straight after equals op, left, right and the equals flag are cleared first; display := value, numberEntered := true |
| NixieCalc.NixieCalc.OnOperation | Software/Firmware/Controller/lib/NixieCalc/src/NixieCalc.cpp:62-131 | the new state is `Operate` of the old: each operation group goes to its handler, only without an error, and all-clear always |
| NixieCalc.NixieCalc.OnDualValueOperation | Software/Firmware/Controller/lib/NixieCalc/src/NixieCalc.cpp:134-163 | the new state is `DualValue` of the old |
| NixieCalc.NixieCalc.OnSingleValueOperation | Software/Firmware/Controller/lib/NixieCalc/src/NixieCalc.cpp:166-181 | the new state is `SingleValue` of the old: the display is evaluated with a right operand of 0 and also copied to left when nothing is pending |
| NixieCalc.NixieCalc.OnEqualsOperation | Software/Firmware/Controller/lib/NixieCalc/src/NixieCalc.cpp:184-209 | the new state is `EqualsOp` of the old |
| NixieCalc.NixieCalc.OnMemoryOperation | Software/Firmware/Controller/lib/NixieCalc/src/NixieCalc.cpp:212-240 | the new state is `MemoryOp` of the old |
| NixieCalc.NixieCalc.OnConstantOperation | Software/Firmware/Controller/lib/NixieCalc/src/NixieCalc.cpp:242-254 | the new state is numeric input of EULER or PI |
| NixieCalc.NixieCalc.OnClearOperation | Software/Firmware/Controller/lib/NixieCalc/src/NixieCalc.cpp:257-272 | all-clear resets, clear zeroes the display only |
| NixieCalc.NixieCalc.OnPercentOperation | Software/Firmware/Controller/lib/NixieCalc/src/NixieCalc.cpp:275-303 | the new state is `PercentOp` of the old |
| NixieCalc.NixieCalc.OnAllClear | Software/Firmware/Controller/lib/NixieCalc/src/NixieCalc.cpp:306-315 | the new state is the all-clear state of the old |
| NixieCalc.NixieCalc.FactorialLoop | Software/Firmware/Controller/lib/NixieCalc/src/NixieCalc.cpp:464-468 | the loop leaves n.Floor! in the result |
| NixieCalc.NixieCalc.TanValue | Software/Firmware/Controller/lib/NixieCalc/src/NixieCalc.cpp:401-426 | in degrees an operand with abs(remainder(x, 360)) = 90 is domain, in radians one with cos(x) = 0; otherwise tan of the operand in radians |
| NixieCalc.NixieCalc.FactorialValue | Software/Firmware/Controller/lib/NixieCalc/src/NixieCalc.cpp:454-475 | above 20 overflow, a natural gives its factorial, anything else domain |
| NixieCalc.NixieCalc.OperationValue | Software/Firmware/Controller/lib/NixieCalc/src/NixieCalc.cpp:324-480 | the switch agrees with `Compute` for every operation, unknown ones giving unknownoperation |
| NixieCalc.NixieCalc.CalculateValue | Software/Firmware/Controller/lib/NixieCalc/src/NixieCalc.cpp:318-495 | the return code and result are `Evaluate`: the switch, then the overflow gate, then 0 on any error |
| Calculator.IndexOf | Software/Firmware/Controller/lib/Calculator/src/Calculator.h:199-209 | `indexOf` gives -1 exactly when the character is absent, and otherwise its first position |
| Calculator.Dots | Software/Firmware/Controller/lib/Calculator/src/Calculator.h:20-24 | the error text is digitCount dots |
| Calculator.TrimZeros | Software/Firmware/Controller/lib/Calculator/src/Calculator.h:214-217 | removing trailing zeros keeps the '.' and never lengthens the string |
| Calculator.TrimZerosShape | Software/Firmware/Controller/lib/Calculator/src/Calculator.h:214-217 | the zero loop removes a run of '0' and nothing else, and stops at a character that is not '0' |
| Calculator.StrippedShape | Software/Firmware/Controller/lib/Calculator/src/Calculator.h:209-223 | the stripped string is a prefix of the formatted one, lost only zeros and at most the '.', never ends in '.', and, while it holds a '.', never in '0' |
| Calculator.UsedDigits | Software/Firmware/Controller/lib/Calculator/src/Calculator.h:326-338 | for a string shorter than 256 the count is its length less one for a '-' and one for a '.' |
| Calculator.DigitInput | Software/Firmware/Controller/lib/Calculator/src/Calculator.h:234-256 | in error nothing changes; otherwise an entry is open afterwards, holding the digit alone, the open entry with the digit appended, or the open entry unchanged |
| Calculator.PointInput | Software/Firmware/Controller/lib/Calculator/src/Calculator.h:258-277 | in error nothing changes; otherwise an entry is open afterwards and holds a '.', an open entry keeping its text with at most a '.' appended |
| Calculator.UsedDigitsOfTyped | Software/Firmware/Controller/lib/Calculator/src/Calculator.h:326-338 | for a typed buffer `getUsedDigits` is its length less one for a '.' |
| Calculator.EntryStaysWellTyped | Software/Firmware/Controller/lib/Calculator/src/Calculator.h:234-277 | digit and decimal-point input keep the buffer to digits and at most one '.', with at most digitCount digits |
| Calculator.DigitStaysWellTyped | Software/Firmware/Controller/lib/Calculator/src/Calculator.h:234-256 | a digit typed within the budget onto a well-typed text, or as the first character, leaves it well typed |
| Calculator.DigitEntryCases | Software/Firmware/Controller/lib/Calculator/src/Calculator.h:234-256 | the first digit of an entry replaces the buffer, a lone "0" is replaced by the digit, otherwise the digit is appended exactly while the budget allows |
| Calculator.DecimalPointIdempotent | Software/Firmware/Controller/lib/Calculator/src/Calculator.h:258-277 | a second decimal point changes nothing; outside an entry the buffer restarts as "0." |
| Calculator.OperationStep | Software/Firmware/Controller/lib/Calculator/src/Calculator.h:279-324 | the entry is closed after every operation; the angle mode never changes, and memory only through a memory operation accepted without error |
| Calculator.OperationInputCases | Software/Firmware/Controller/lib/Calculator/src/Calculator.h:279-324 | the entry is closed after every call; in error only all-clear acts (and shows 0 rendered); memstore, mem- and mem+ push the buffer and keep the text; memclear touches only memory |
| Calculator.OperationInputRenders | Software/Firmware/Controller/lib/Calculator/src/Calculator.h:298-310 | after any other operation the display is the rendered engine value, or the dots when the engine reports an error |
| Calculator.Render | Software/Firmware/Controller/lib/Calculator/src/Calculator.h:185-225 | with a formatter that writes at most one '.', a rendered number never ends in '.', nor in '0' after a '.' |
| Calculator.KeyMapMatchesDecoder | Software/Firmware/Controller/lib/Calculator/src/Calculator.h:42-180 | the calculator's key switch and the decoder's plain key map send every key code to the same digit, double zero, point, operation or nothing |
| Calculator.NoFunctionLayer | Software/Firmware/Controller/lib/Calculator/src/Calculator.h:42-180 | no key reaches factorial, euler or pi in calculator mode |
| Calculator.DoubleZeroIsTwoZeros | Software/Firmware/Controller/lib/Calculator/src/Calculator.h:84-88 | KEY_00 is two KEY_0 presses; in error, digit, double-zero and point keys change nothing |
| Calculator.KeyPressTypes | Software/Firmware/Controller/lib/Calculator/src/Calculator.h:38-92 | the digit, double-zero and point keys leave the engine alone and act on the entry only |
| Calculator.Calculator.constructor | Software/Firmware/Controller/lib/Calculator/src/Calculator.h:17-27 | the display is "0", no entry is pending, the error text is digitCount dots and the engine is fresh, all-clear, in degrees |
| Calculator.Calculator.NumericInput | Software/Firmware/Controller/lib/Calculator/src/Calculator.h:234-256 | the buffer becomes `DigitInput` of the old one |
| Calculator.Calculator.DecimalPointInput | Software/Firmware/Controller/lib/Calculator/src/Calculator.h:258-277 | the buffer becomes `PointInput` of the old one |
| Calculator.Calculator.OperationInput | Software/Firmware/Controller/lib/Calculator/src/Calculator.h:279-324 | buffer and engine become `OperationStep` of the old ones |
| Calculator.Calculator.OperateAndShow | Software/Firmware/Controller/lib/Calculator/src/Calculator.h:279-310 | the engine runs the operation; when asked, the display shows its rendered value or the error text, and otherwise keeps its text |
| Calculator.Calculator.DoubleToString | Software/Firmware/Controller/lib/Calculator/src/Calculator.h:185-225 | the result is `Render`: formatted with digitCount decimals, reformatted with the decimals left after the integer digits, then stripped |
| Calculator.Calculator.StripTrailingZeros | Software/Firmware/Controller/lib/Calculator/src/Calculator.h:209-223 | the loops leave `Stripped` of the formatted string |
| Calculator.Calculator.OnKeyboardEvent | Software/Firmware/Controller/lib/Calculator/src/Calculator.h:38-182 | only a pressed key acts, and then buffer and engine become `KeyPress` of the old ones |
| KeyboardDecoder.Decode | Software/Firmware/Controller/lib/KeyboardDecoder/src/KeyboardDecoder.h:33-233 | `decode` never yields the `function` kind; an unmapped code leaves the three defaults (unknown, none, 255); an operation always comes with an operation and no digit |
| KeyboardDecoder.DecodePlain | Software/Firmware/Controller/lib/KeyboardDecoder/src/KeyboardDecoder.h:40-212 | without the function key a digit result is the digit whose key was pressed, and operations carry no digit |
| KeyboardDecoder.DecodeShifted | Software/Firmware/Controller/lib/KeyboardDecoder/src/KeyboardDecoder.h:213-232 | with the function key exactly KEY_INV, KEY_LN and KEY_SIN are mapped, to operations; everything else is the defaults |
| KeyboardDecoder.PlainDigits | Software/Firmware/Controller/lib/KeyboardDecoder/src/KeyboardDecoder.h:44-91 | without the function key exactly the ten digit keys decode as numeric, digit key d giving digit d |
| KeyboardDecoder.PlainLayer | Software/Firmware/Controller/lib/KeyboardDecoder/src/KeyboardDecoder.h:93-100 | exactly KEY_00 decodes as a double zero (digit 0) and exactly KEY_DOT as the decimal point |
| KeyboardDecoder.PlainUnknown | Software/Firmware/Controller/lib/KeyboardDecoder/src/KeyboardDecoder.h:40-212 | without the function key every key code 1..35 but KEY_FUNCTION is mapped, and every other byte is unknown |
| KeyboardDecoder.FunctionLayer | Software/Firmware/Controller/lib/KeyboardDecoder/src/KeyboardDecoder.h:213-232 | with the function key INV is factorial, LN euler, SIN pi, and the digit keys decode to nothing |
| KeyboardDecoder.FunctionOnlyOperations | Software/Firmware/Controller/lib/KeyboardDecoder/src/KeyboardDecoder.h:40-212 | factorial, euler and pi are never produced without the function key |
| KeyboardHandler.KeyCodesAreTheMatrix | Software/Firmware/Controller/lib/KeyboardHandler/src/KeyboardHandler.h:13-47 | the 35 key codes are pairwise distinct and are exactly 1..35 |
| KeyboardHandler.DigitKeysAreDistinct | Software/Firmware/Controller/lib/KeyboardHandler/src/KeyboardHandler.h:13-23 | the ten digit keys are distinct key codes, none of them KEY_00 or KEY_DOT |
| KeyboardHandler.KeyStateOf | Software/Firmware/Controller/lib/KeyboardHandler/src/KeyboardHandler.h:59-66 | a state byte names an enumerator of `key_state` exactly when it is below 5, and then the one with that value |
| KeyboardHandler.KeyStateCodesMatchFirmware | Software/Firmware/Controller/lib/KeyboardHandler/src/KeyboardHandler.h:59-66 | every state's code decodes back to it, and autorepeat is code 4, the keyboard firmware's own repeat state |
| KeyboardHandler.LatchAfter | Software/Firmware/Controller/lib/KeyboardHandler/src/KeyboardHandler.h:108-128 | after a run of frames the function-key flag reflects the last frame when that frame is the function key's (down for pressed, hold or repeat); a run without function-key frames leaves it as it was |
| KeyboardHandler.Notifications | Software/Firmware/Controller/lib/KeyboardHandler/src/KeyboardHandler.h:108-130 | one callback per frame; a run without function-key frames reports the flag as it was in every callback |
| KeyboardHandler.EveryFrameForwarded | Software/Firmware/Controller/lib/KeyboardHandler/src/KeyboardHandler.h:108-130 | with a callback, frame i is forwarded as call i with its own key and state and the latch after that frame |
| KeyboardHandler.OtherKeysKeepLatch | Software/Firmware/Controller/lib/KeyboardHandler/src/KeyboardHandler.h:114-128 | frames of other keys never change the latch |
| KeyboardHandler.LastFunctionFrameDecides | Software/Firmware/Controller/lib/KeyboardHandler/src/KeyboardHandler.h:114-128 | the latch is true after a run of frames exactly when the last function-key frame was pressed, hold or autorepeat |
| KeyboardHandler.SetterBytes | Software/Firmware/Controller/lib/KeyboardHandler/src/KeyboardHandler.h:135-177 | a setter writes three bytes: the command marker, the command, and only the low byte of its value |
| KeyboardHandler.ValueBytes | Software/Firmware/Controller/lib/KeyboardHandler/src/KeyboardHandler.h:135-177 | the corrected setter writes marker, command, then the value's high and low bytes, which together give the value back |
| KeyboardHandler.KeyboardHandler.constructor | Software/Firmware/Controller/lib/KeyboardHandler/src/KeyboardHandler.h:75-82 | no serial port, no callback (the firmware leaves it unset; see "## Left out"), latch clear |
| KeyboardHandler.KeyboardHandler.Begin | Software/Firmware/Controller/lib/KeyboardHandler/src/KeyboardHandler.h:88-91 | a port is attached; nothing else changes |
| KeyboardHandler.KeyboardHandler.Attach | Software/Firmware/Controller/lib/KeyboardHandler/src/KeyboardHandler.h:93-96 | a callback is attached; nothing else changes |
| KeyboardHandler.KeyboardHandler.Detach | Software/Firmware/Controller/lib/KeyboardHandler/src/KeyboardHandler.h:98-101 | the callback is removed; nothing else changes |
| KeyboardHandler.KeyboardHandler.Process | Software/Firmware/Controller/lib/KeyboardHandler/src/KeyboardHandler.h:103-133 | with a port every available frame is consumed; with a callback too, the calls made are `Notifications` and the latch `LatchAfter` of the frames, otherwise no call and the latch unchanged |
| KeyboardFirmware.FindSlot | Software/Firmware/Keyboard/src/main.cpp:370-379 | the slot found is the first holding the code, or the table length when no slot holds it |
| KeyboardFirmware.ReadUInt | Software/Firmware/Keyboard/src/main.cpp:409-419 | the high byte arrives first: the value's high byte is the first byte and its low byte the second |
| KeyboardFirmware.ReadUIntRoundTrip | Software/Firmware/Keyboard/src/main.cpp:409-419 | sending any 16-bit value high byte first and reading it back gives the value |
| KeyboardFirmware.FindSlotIs | Software/Firmware/Keyboard/src/main.cpp:370-379 | the first slot holding the code is the one found |
| KeyboardFirmware.FindSlotMissing | Software/Firmware/Keyboard/src/main.cpp:370-379 | a code held by no slot is not found |
| KeyboardFirmware.SetHold | Software/Firmware/Keyboard/src/main.cpp:383-395 | the table keeps its size and every occupied slot; when a slot is free the key enters the table, stamped, with count 0; a full table is unchanged |
| KeyboardFirmware.DeleteHold | Software/Firmware/Keyboard/src/main.cpp:368-380 | the table keeps its size; a slot either stays or, holding the key, becomes free; a held (non-zero) key changes the table, and a key held nowhere leaves it unchanged |
| KeyboardFirmware.Due | Software/Firmware/Keyboard/src/main.cpp:208-228 | a due slot holds a key and its elapsed time exceeds the normal or the (non-zero) fast interval; with no fast delay configured it is due exactly when the elapsed time exceeds the normal interval |
| KeyboardFirmware.Repeated | Software/Firmware/Keyboard/src/main.cpp:243-250 | after a repeat the slot keeps its key, is stamped now and is not due at the same instant; without a fast interval the repeat count does not move |
| KeyboardFirmware.Poll | Software/Firmware/Keyboard/src/main.cpp:208-251 | a slot keeps its key and is never due right after a poll; it changes only when it was due, and then its stamp is now |
| KeyboardFirmware.SetHoldFillsFirstFree | Software/Firmware/Keyboard/src/main.cpp:383-395 | a held key takes the first free slot, stamped, with count 0, and no other slot changes; a full table is unchanged |
| KeyboardFirmware.DeleteHoldFreesFirst | Software/Firmware/Keyboard/src/main.cpp:368-380 | a released key frees the first slot holding it and no other slot, because the loop stops at the first match; a key held nowhere leaves the table unchanged |
| KeyboardFirmware.FreeSlotsStayZeroed | Software/Firmware/Keyboard/src/main.cpp:368-406 | hold, release and polling keep every free slot entirely zero |
| KeyboardFirmware.HoldThenRelease | Software/Firmware/Keyboard/src/main.cpp:368-395 | releasing a key that was just held gives back the table it was held into |
| KeyboardFirmware.JustHeldRepeatsAtNextPoll | Software/Firmware/Keyboard/src/main.cpp:211-218 | a key just held is stamped one interval ahead; with unsigned wrap-around it is already due at the next poll, less than an interval later |
| KeyboardFirmware.RepeatWaitsAnInterval | Software/Firmware/Keyboard/src/main.cpp:208-251 | after a repeat a slot is not due again until the normal interval has passed, nor before the fast one when the fast interval is switched on; this covers the default setting with fast repeat off |
| KeyboardFirmware.SetterValueGarbled | Software/Firmware/Keyboard/src/main.cpp:409-419 | a value sent by one of the main board's setters arrives as its low byte times 256 plus 255, so it arrives intact only when it is 65535; hold time 2000 arrives as 53503 and interval 0 as 255 |
| KeyboardFirmware.ValueBytesRoundTrip | Software/Firmware/Keyboard/src/main.cpp:409-419 | a value sent as two bytes, high byte first, arrives intact |
| KeyboardFirmware.Keyboard.constructor | Software/Firmware/Keyboard/src/main.cpp:105-111 | hold time 1000, debounce 10, no auto-repeat, every slot free |
| KeyboardFirmware.Keyboard.InitKeyHoldInfo | Software/Firmware/Keyboard/src/main.cpp:398-406 | every slot becomes free and zero |
| KeyboardFirmware.Keyboard.SetKeyHoldInfo | Software/Firmware/Keyboard/src/main.cpp:383-395 | the table becomes `SetHold` of the old one, stamped now + autoRepeatInterval |
| KeyboardFirmware.Keyboard.DeleteKeyHoldInfo | Software/Firmware/Keyboard/src/main.cpp:368-380 | the table becomes `DeleteHold` of the old one |
| KeyboardFirmware.Keyboard.OnSetAutoRepeatInterval | Software/Firmware/Keyboard/src/main.cpp:345-352 | the interval is the 16-bit value read, and the table is emptied |
| KeyboardFirmware.Keyboard.OnSetFastAutoRepeatInterval | Software/Firmware/Keyboard/src/main.cpp:356-359 | only the fast interval changes, to the value read |
| KeyboardFirmware.Keyboard.OnSetFastAutoRepeatDelay | Software/Firmware/Keyboard/src/main.cpp:362-365 | only the fast delay changes, to the value read |
| KeyboardFirmware.Keyboard.OnKeyStateChanged | Software/Firmware/Keyboard/src/main.cpp:176-197 | the frame sent is (key, state); with auto-repeat on, hold claims a slot and release frees it |
| KeyboardFirmware.Keyboard.AutoRepeat | Software/Firmware/Keyboard/src/main.cpp:201-254 | with auto-repeat off nothing happens; otherwise the frames sent are `RepeatFrames` of the table and each slot becomes `Poll` of itself |
| DisplayDriver.RegisterBits | Software/Firmware/Controller/lib/DisplayDriver/src/DisplayDriver.h:242-262 | a register of a type the switch has no case for (unknown, unused, plus, menu) contributes no bit; minus sign, decimal point, cathode and unconnected outputs exactly one |
| DisplayDriver.CommitStep | Software/Firmware/Controller/lib/DisplayDriver/src/DisplayDriver.h:239-263 | the walk shifts out register `count`'s bits before those of the registers below it |
| DisplayDriver.OneBitPerRegister | Software/Firmware/Controller/lib/DisplayDriver/src/DisplayDriver.h:239-263 | the walk emits one bit per register of a type the switch handles; when all do, register r's bit is at position count - r |
| DisplayDriver.EmittingBound | Software/Firmware/Controller/lib/DisplayDriver/src/DisplayDriver.h:239-263 | at most one bit per register, and exactly one each exactly when every register is of a type the switch handles |
| DisplayDriver.IN17Commit | Software/Firmware/Controller/lib/DisplayDriver/src/DisplayDriver.h:232-265 | on the IN-17 board all 160 registers emit; a cathode bit is high exactly when its tube shows that number, point and sign bits follow their state, unconnected outputs are low |
| DisplayDriver.DarkTubesLightNothing | Software/Firmware/Controller/lib/DisplayDriver/src/DisplayDriver.h:186-196 | with every tube set to the off value no cathode bit is high |
| DisplayDriver.DisplayDriver.constructor | Software/Firmware/Controller/lib/DisplayDriver/src/DisplayDriver.h:52-92 | the buffers have the given sizes, start dark, and the sign is off |
| DisplayDriver.DisplayDriver.SetDigit | Software/Firmware/Controller/lib/DisplayDriver/src/DisplayDriver.h:114-120 | writes the slot only when it exists; nothing else changes |
| DisplayDriver.DisplayDriver.SetDecimalPoint | Software/Firmware/Controller/lib/DisplayDriver/src/DisplayDriver.h:122-128 | writes the point only when it exists; nothing else changes |
| DisplayDriver.DisplayDriver.SetNegativeSign | Software/Firmware/Controller/lib/DisplayDriver/src/DisplayDriver.h:130-133 | only the negative sign changes |
| DisplayDriver.DisplayDriver.ClearDecimalPoints | Software/Firmware/Controller/lib/DisplayDriver/src/DisplayDriver.h:153-159 | every decimal point is off, the digits and sign are unchanged |
| DisplayDriver.DisplayDriver.ClearDigits | Software/Firmware/Controller/lib/DisplayDriver/src/DisplayDriver.h:161-167 | every tube holds the off value, the points and sign are unchanged |
| DisplayDriver.DisplayDriver.ClearNegativeSign | Software/Firmware/Controller/lib/DisplayDriver/src/DisplayDriver.h:169-172 | the negative sign is off |
| DisplayDriver.DisplayDriver.Clear | Software/Firmware/Controller/lib/DisplayDriver/src/DisplayDriver.h:140-145 | digits off, points off and the negative sign off |
| DisplayDriver.DisplayDriver.CommitDigitNumber | Software/Firmware/Controller/lib/DisplayDriver/src/DisplayDriver.h:186-196 | the bit is high exactly when the tube shows that number |
| DisplayDriver.DisplayDriver.CommitDecimalPoint | Software/Firmware/Controller/lib/DisplayDriver/src/DisplayDriver.h:199-209 | the bit is the decimal point's state |
| DisplayDriver.DisplayDriver.CommitNegativeSign | Software/Firmware/Controller/lib/DisplayDriver/src/DisplayDriver.h:211-221 | the bit is the sign's state |
| DisplayDriver.DisplayDriver.CommitRegister | Software/Firmware/Controller/lib/DisplayDriver/src/DisplayDriver.h:242-262 | the bits written for one register are those of `RegisterBits` for its type |
| DisplayDriver.DisplayDriver.CommitToRegisters | Software/Firmware/Controller/lib/DisplayDriver/src/DisplayDriver.h:232-265 | the bits shifted out are `CommitBits` of the buffers over registers 160 down to 1 |
| DisplayDriver.DisplayDriver.SetPlusSign | Software/Firmware/Controller/lib/DisplayHandler/src/DisplayHandler.h:52-55 | only the plus sign changes |
| DisplayHALIN12.TubeIndex | Software/Firmware/Controller/lib/DisplayHAL_IN12/src/DisplayHAL_IN12.h:107-263 | exactly the cathodes 0..9 and the decimal point of tubes 0..13 are assigned, each to an index inside the 160-entry table |
| DisplayHALIN12.TableEntry | Software/Firmware/Controller/lib/DisplayHAL_IN12/src/DisplayHAL_IN12.h:107-270 | exactly the indices 0..159 hold an entry, and each is a valid encoding |
| DisplayHALIN12.GetRegisterInfo | Software/Firmware/Controller/lib/DisplayHAL_IN12/src/DisplayHAL_IN12.h:67-85 | registers outside 1..160 are unknown with digit and number 0; register r reads table entry r - 1 |
| DisplayHALIN12.TableInverts | Software/Firmware/Controller/lib/DisplayHAL_IN12/src/DisplayHAL_IN12.h:107-270 | every table index holds a cathode, decimal-point, sign or unused entry, and a cathode or decimal-point entry is the one the constructor assigned to that very index |
| DisplayHALIN12.AssignmentsLandLow | Software/Firmware/Controller/lib/DisplayHAL_IN12/src/DisplayHAL_IN12.h:110-186 | each assignment for tubes 0..6 stores its entry at the index it names |
| DisplayHALIN12.AssignmentsLandHigh | Software/Firmware/Controller/lib/DisplayHAL_IN12/src/DisplayHAL_IN12.h:187-263 | each assignment for tubes 7..13 stores its entry at the index it names |
| DisplayHALIN12.LookupIsTotal | Software/Firmware/Controller/lib/DisplayHAL_IN12/src/DisplayHAL_IN12.h:74-83 | no register in 1..160 reads as unknown: the constructor fills the whole table |
| DisplayHALIN12.EntryAt | Software/Firmware/Controller/lib/DisplayHAL_IN12/src/DisplayHAL_IN12.h:107-270 | a cathode or decimal-point entry sits at exactly one index, the one its assignment names |
| DisplayHALIN12.CathodeRegister | Software/Firmware/Controller/lib/DisplayHAL_IN12/src/DisplayHAL_IN12.h:67-85 | cathode n of tube d is reported by exactly one register, one above the index the constructor gave it |
| DisplayHALIN12.DecimalPointRegister | Software/Firmware/Controller/lib/DisplayHAL_IN12/src/DisplayHAL_IN12.h:67-85 | the decimal point of tube d is reported by exactly one register |
| DisplayHALIN12.SignRegisters | Software/Firmware/Controller/lib/DisplayHAL_IN12/src/DisplayHAL_IN12.h:264-269 | indices 27, 28, 29 hold the minus, plus and menu signs of digit 14; 26, 30 and 31 are unused |
| DisplayHALIN17.GetRegisterInfo | Software/Firmware/Controller/lib/DisplayHAL_IN17/src/DisplayHAL_IN17.h:26-60 | unknown exactly outside 1..160; a cathode is register 11d + n + 1 and a decimal point 11(d + 1) for a tube d < 14; 155 is the sign; 156..160 are not connected |
| DisplayHALIN17.NumberRegisters | Software/Firmware/Controller/lib/DisplayHAL_IN17/src/DisplayHAL_IN17.h:36-49 | cathode n of tube d has exactly one register, 11d + n + 1 |
| DisplayHALIN17.DecimalPointRegisters | Software/Firmware/Controller/lib/DisplayHAL_IN17/src/DisplayHAL_IN17.h:36-49 | the decimal point of tube d has exactly one register, 11(d + 1) |
| DisplayHALIN17.RegisterLayout | Software/Firmware/Controller/lib/DisplayHAL_IN17/src/DisplayHAL_IN17.h:32-58 | registers 1..154 are cathodes and decimal points, and the decimal points are exactly those divisible by 11 |
| DisplayHandler.SetSlot | Software/Firmware/Controller/lib/DisplayHandler/src/DisplayHandler.h:62 | a bounded setter never changes the buffer's length |
| DisplayHandler.Step | Software/Firmware/Controller/lib/DisplayHandler/src/DisplayHandler.h:45-85 | no case of the switch changes the buffers' sizes |
| DisplayHandler.ScanBack | Software/Firmware/Controller/lib/DisplayHandler/src/DisplayHandler.h:43-86 | the walk keeps the buffers' sizes |
| DisplayHandler.ScanAppend | Software/Firmware/Controller/lib/DisplayHandler/src/DisplayHandler.h:43-86 | walking from the end, the walk over p + q is the walk over q, then over p |
| DisplayHandler.ScanSigns | Software/Firmware/Controller/lib/DisplayHandler/src/DisplayHandler.h:47-55 | the minus sign is lit exactly when it was or the string has a '-', the plus sign likewise with '+' |
| DisplayHandler.SignsOfShownString | Software/Firmware/Controller/lib/DisplayHandler/src/DisplayHandler.h:29-88 | after `show` the minus sign is lit exactly when the string has a '-'; the plus sign when it has a '+' or was lit before |
| DisplayHandler.PointsStayLit | Software/Firmware/Controller/lib/DisplayHandler/src/DisplayHandler.h:57-64 | the walk never switches a decimal point off |
| DisplayHandler.ScanFrame | Software/Firmware/Controller/lib/DisplayHandler/src/DisplayHandler.h:43-86 | the position only moves left, one step per character at most, and no tube right of it changes |
| DisplayHandler.DigitRun | Software/Firmware/Controller/lib/DisplayHandler/src/DisplayHandler.h:66-79 | a run of digits fills the positions right to left with their values and leaves the points alone |
| DisplayHandler.DigitStringRightAligned | Software/Firmware/Controller/lib/DisplayHandler/src/DisplayHandler.h:29-88 | a digit string no longer than the display is right-aligned, and the tubes to its left keep the padding value (0 or dark) |
| DisplayHandler.CharacterPosition | Software/Firmware/Controller/lib/DisplayHandler/src/DisplayHandler.h:43-86 | a non-sign, non-point character before a run of digits lands just left of the run: its value for a digit, the padding value otherwise |
| DisplayHandler.PointLightsDigitToItsLeft | Software/Firmware/Controller/lib/DisplayHandler/src/DisplayHandler.h:57-64 | a decimal point lights the point of the digit it follows in the string |
| DisplayHandler.DoubleDotStepsLeft | Software/Firmware/Controller/lib/DisplayHandler/src/DisplayHandler.h:57-64 | of two consecutive decimal points, the left one steps one position left and both points are lit |
| DisplayHandler.DisplayHandler.constructor | Software/Firmware/Controller/lib/DisplayHandler/src/DisplayHandler.h:16 | the driver is built with the given digit and decimal-point counts |
| DisplayHandler.DisplayHandler.ZeroPad | Software/Firmware/Controller/lib/DisplayHandler/src/DisplayHandler.h:35-41 | every tube is set to 0 |
| DisplayHandler.DisplayHandler.ShowCharacter | Software/Firmware/Controller/lib/DisplayHandler/src/DisplayHandler.h:45-85 | the character's case changes the buffers, position and flag exactly as `Step` |
| DisplayHandler.DisplayHandler.Show | Software/Firmware/Controller/lib/DisplayHandler/src/DisplayHandler.h:29-88 | the buffers become `Shown` of the old ones, and the bits committed are those of the new buffers |
| Setting.Initial | Software/Firmware/Controller/lib/Setting/src/Setting.h:21-32 | a new setting holds its default and is marked modified |
| Setting.WithTemp | Software/Firmware/Controller/lib/Setting/src/Setting.h:43-49 | the temporary value takes v exactly when v is in range; value and flag never change |
| Setting.Assigned | Software/Firmware/Controller/lib/Setting/src/Setting.h:51-61 | `set` changes the setting exactly when v is new and in range, then stores v and raises the flag; the temporary value is untouched |
| Setting.AssignIdempotent | Software/Firmware/Controller/lib/Setting/src/Setting.h:43-61 | setting (or temp-setting) the same value twice is the same as once |
| Setting.OperationsKeepBounds | Software/Firmware/Controller/lib/Setting/src/Setting.h:43-97 | with the default in range, every setter keeps both values in range |
| Setting.ResetAndSave | Software/Firmware/Controller/lib/Setting/src/Setting.h:88-97 | `reset` restores the default and raises the flag; `resetModified` clears only the flag |
| Setting.Setting.constructor | Software/Firmware/Controller/lib/Setting/src/Setting.h:21-32 | id, type and limits as given; the value is the default and the flag is raised |
| Setting.Setting.SetTempValue | Software/Firmware/Controller/lib/Setting/src/Setting.h:43-49 | the state becomes `WithTemp` of the old one |
| Setting.Setting.Set | Software/Firmware/Controller/lib/Setting/src/Setting.h:51-61 | the state becomes `Assigned` of the old one |
| Setting.Setting.Reset | Software/Firmware/Controller/lib/Setting/src/Setting.h:88-92 | the state becomes `ResetToDefault` of the old one |
| Setting.Setting.ResetModified | Software/Firmware/Controller/lib/Setting/src/Setting.h:94-97 | the state becomes `Saved` of the old one |
| MenuHandler.RgbToInt | Software/Firmware/Controller/lib/MenuHandler/src/MenuHandler.h:414-417 | a packed colour lies in 0..MAX_RGB_INT |
| MenuHandler.IntToRgb | Software/Firmware/Controller/lib/MenuHandler/src/MenuHandler.h:419-424 | green and blue are the low 16 bits of the value; for a packed colour, red is the byte above them |
| MenuHandler.TimeToInt | Software/Firmware/Controller/lib/MenuHandler/src/MenuHandler.h:426-429 | the packed time is never negative; with a valid minute, dividing by 60 gives back the hours and the remainder the minutes |
| MenuHandler.IntToTime | Software/Firmware/Controller/lib/MenuHandler/src/MenuHandler.h:431-435 | a time of day 0..MAX_TIME_INT unpacks to its quotient and remainder by 60, hours at most 23; a value just below zero gives hour 0 and a wrapped minute byte, C's remainder being negative |
| MenuHandler.RgbRoundTrip | Software/Firmware/Controller/lib/MenuHandler/src/MenuHandler.h:414-424 | unpacking a packed colour gives back its three bytes |
| MenuHandler.RgbUnpackRoundTrip | Software/Firmware/Controller/lib/MenuHandler/src/MenuHandler.h:414-424 | every value in 0..MAX_RGB_INT is the packing of its own unpacking |
| MenuHandler.TimeRoundTrip | Software/Firmware/Controller/lib/MenuHandler/src/MenuHandler.h:426-435 | unpacking a packed time with minutes < 60 gives back its hours and minutes; 23:59 packs to MAX_TIME_INT |
| MenuHandler.TimeUnpackRoundTrip | Software/Firmware/Controller/lib/MenuHandler/src/MenuHandler.h:426-435 | every value in 0..MAX_TIME_INT unpacks to hours ≤ 23 and minutes ≤ 59 and packs back to itself |
| MenuHandler.EditingKeepsStoredValue | Software/Firmware/Controller/lib/MenuHandler/src/MenuHandler.h:221-359 | the previous/next value operations change only the temporary value and keep it in range |
| MenuHandler.NumericEditing | Software/Firmware/Controller/lib/MenuHandler/src/MenuHandler.h:230-236 | a number steps by one, only while strictly inside its range |
| MenuHandler.TimeEditing | Software/Firmware/Controller/lib/MenuHandler/src/MenuHandler.h:238-258 | for a time the selected part moves by one and stops at 0 and at 23 or 59; the other part stays and the result is a valid time |
| MenuHandler.RgbEditing | Software/Firmware/Controller/lib/MenuHandler/src/MenuHandler.h:260-287 | for a colour the selected component moves by one and stops at 0 and 255; the other two stay |
| MenuHandler.CursorSaturates | Software/Firmware/Controller/lib/MenuHandler/src/MenuHandler.h:193-219 | the cursor moves by one and stops at the first and the last setting; it never leaves the settings |
| MenuHandler.PartsCycle | Software/Firmware/Controller/lib/MenuHandler/src/MenuHandler.h:369-396 | committing cycles the colour part red, green, blue and the time part hours, minutes; each commit moves it |
| MenuHandler.CommitRevertReset | Software/Firmware/Controller/lib/MenuHandler/src/MenuHandler.h:361-412 | commit stores the temporary value (raising the flag if it differs); revert loads the stored value; reset stores the default and loads it |
| MenuHandler.Routing | Software/Firmware/Controller/lib/MenuHandler/src/MenuHandler.h:74-109 | only pressed and autorepeat events act, each of the seven menu keys has its own action, no other key acts |
| MenuHandler.MenuHandler.constructor | Software/Firmware/Controller/lib/MenuHandler/src/MenuHandler.h:33-38 | the settings are the map's, in id order; the digit count is 0 |
| MenuHandler.MenuHandler.FormatDisplay | Software/Firmware/Controller/lib/MenuHandler/src/MenuHandler.h:123-191 | red, green and blue become the temporary colour for a colour setting and 0 otherwise |
| MenuHandler.MenuHandler.Reload | Software/Firmware/Controller/lib/MenuHandler/src/MenuHandler.h:403 | the temporary value of the current setting becomes its stored value |
| MenuHandler.MenuHandler.Begin | Software/Firmware/Controller/lib/MenuHandler/src/MenuHandler.h:44-52 | the cursor is at the first setting, the parts are red and hours, the stored value is loaded for editing |
| MenuHandler.MenuHandler.SetNextSetting | Software/Firmware/Controller/lib/MenuHandler/src/MenuHandler.h:193-207 | the cursor moves by `NextIndex`, the parts reset, the new setting's value is loaded and no other setting changes |
| MenuHandler.MenuHandler.SetPrevSetting | Software/Firmware/Controller/lib/MenuHandler/src/MenuHandler.h:209-219 | the cursor moves by `PrevIndex`, the parts reset, the new setting's value is loaded and no other setting changes |
| MenuHandler.MenuHandler.StepValue | Software/Firmware/Controller/lib/MenuHandler/src/MenuHandler.h:221-359 | the current setting becomes `Edited` of its old state for the current parts |
| MenuHandler.MenuHandler.CommitValue | Software/Firmware/Controller/lib/MenuHandler/src/MenuHandler.h:361-399 | the temporary value is stored with `set`, and the part of a time or colour setting moves on |
| MenuHandler.MenuHandler.RevertValue | Software/Firmware/Controller/lib/MenuHandler/src/MenuHandler.h:401-405 | the temporary value goes back to the stored one |
| MenuHandler.MenuHandler.ResetValue | Software/Firmware/Controller/lib/MenuHandler/src/MenuHandler.h:407-412 | the stored value goes back to the default and is loaded for editing |
| MenuHandler.MenuHandler.OnKeyboardEvent | Software/Firmware/Controller/lib/MenuHandler/src/MenuHandler.h:74-109 | the action taken is `ActionOf` the key and state, and the new state is that action's: next or previous setting moves the cursor, resets the parts and loads the value; previous or next value gives `Edited`; commit gives `Assigned` and moves the part on; revert reloads the stored value; reset stores and loads the default; other settings never change, and with no action nothing changes |
| UbGpsTime.StepChecksum | Software/Firmware/Controller/lib/ubGPSTime/src/ubGPSTime.cpp:233-237 | both sums wrap at eight bits: CK_A gains the byte, CK_B gains the new CK_A |
| UbGpsTime.FletcherSnoc | Software/Firmware/Controller/lib/ubGPSTime/src/ubGPSTime.cpp:233-237 | checksumming one more byte is one more step of `stepChecksum` |
| UbGpsTime.FletcherOfHeader | Software/Firmware/Controller/lib/ubGPSTime/src/ubGPSTime.cpp:218-225 | the checksum of the four header bytes is four steps from zero |
| UbGpsTime.Fletcher | Software/Firmware/Controller/lib/ubGPSTime/src/ubGPSTime.cpp:218-237 | CK_A is the byte sum modulo 256 and CK_B the sum of the running sums modulo 256: wrapping at each step is wrapping once |
| UbGpsTime.ChecksumInput | Software/Firmware/Controller/lib/ubGPSTime/src/ubGPSTime.cpp:218-230 | the checksum covers class, id, the two length bytes (little-endian, giving the length back) and exactly the payload |
| UbGpsTime.Sealed | Software/Firmware/Controller/lib/ubGPSTime/src/ubGPSTime.cpp:259-263 | sending changes only the two checksum bytes, which become the Fletcher checksum of class, id, length and payload |
| UbGpsTime.FrameBytes | Software/Firmware/Controller/lib/ubGPSTime/src/ubGPSTime.cpp:270-285 | a frame is eight bytes longer than its payload |
| UbGpsTime.Frame | Software/Firmware/Controller/lib/ubGPSTime/src/ubGPSTime.cpp:255-294 | the bytes written are the sync bytes, the checksummed bytes, then a checksum that matches them |
| UbGpsTime.Buffer | Software/Firmware/Controller/lib/ubGPSTime/src/ubGPSTime.cpp:131 | the payload buffer has the announced length |
| UbGpsTime.ParseByte | Software/Firmware/Controller/lib/ubGPSTime/src/ubGPSTime.cpp:62-178 | an idle parser leaves idle exactly on 0xB5; each byte moves the field counter one state on, or back to idle, or from the length to CK_A for an empty payload, or keeps it in the payload; CK_B always returns to idle with both counters reset, storing the byte |
| UbGpsTime.ParseByteValid | Software/Firmware/Controller/lib/ubGPSTime/src/ubGPSTime.cpp:62-178 | every byte keeps the parser's invariant: field counter 0..8, payload counter below the length, buffer of the announced size while in the payload |
| UbGpsTime.Completed | Software/Firmware/Controller/lib/ubGPSTime/src/ubGPSTime.cpp:151-162 | a frame is delivered exactly on the CK_B byte, carries that byte, and holds exactly its announced payload |
| UbGpsTime.RunSnoc | Software/Firmware/Controller/lib/ubGPSTime/src/ubGPSTime.cpp:68-169 | running one more byte is one more `ParseByte`, and adds what that byte completes |
| UbGpsTime.RunValid | Software/Firmware/Controller/lib/ubGPSTime/src/ubGPSTime.cpp:68-169 | the invariant holds after any run of bytes |
| UbGpsTime.DeliveredWellFormed | Software/Firmware/Controller/lib/ubGPSTime/src/ubGPSTime.cpp:68-169 | every frame delivered holds exactly its announced payload |
| UbGpsTime.RunAppend | Software/Firmware/Controller/lib/ubGPSTime/src/ubGPSTime.cpp:68-169 | the parser is a fold: a run over a + b is the run over b from the state after a |
| UbGpsTime.DeliveredAppend | Software/Firmware/Controller/lib/ubGPSTime/src/ubGPSTime.cpp:68-169 | the frames of a + b are those of a, then those of b from the state after a |
| UbGpsTime.SyncHandling | Software/Firmware/Controller/lib/ubGPSTime/src/ubGPSTime.cpp:73-97 | an idle parser moves on only for 0xB5 and otherwise stays as it is; after it, only 0x62 moves on and anything else resynchronises |
| UbGpsTime.RepeatedSyncLosesFrame | Software/Firmware/Controller/lib/ubGPSTime/src/ubGPSTime.cpp:73-97 | 0xB5 0xB5 0x62 leaves the parser idle: a repeated first sync byte is not taken as a new start |
| UbGpsTime.LengthHandling | Software/Firmware/Controller/lib/ubGPSTime/src/ubGPSTime.cpp:109-134 | the length is little-endian; zero skips to CK_A, above MAX_PAYLOAD resynchronises, otherwise a buffer of that length is allocated |
| UbGpsTime.RunPayload | Software/Firmware/Controller/lib/ubGPSTime/src/ubGPSTime.cpp:136-144 | the payload bytes are stored in order at the payload counter |
| UbGpsTime.PayloadDeliversNothing | Software/Firmware/Controller/lib/ubGPSTime/src/ubGPSTime.cpp:136-144 | no frame completes inside the payload |
| UbGpsTime.PayloadByte | Software/Firmware/Controller/lib/ubGPSTime/src/ubGPSTime.cpp:137-138 | one payload byte is stored at the payload counter |
| UbGpsTime.RunWholePayload | Software/Firmware/Controller/lib/ubGPSTime/src/ubGPSTime.cpp:136-144 | the whole payload brings the parser to CK_A with the payload stored |
| UbGpsTime.RunSync | Software/Firmware/Controller/lib/ubGPSTime/src/ubGPSTime.cpp:73-102 | the sync bytes and the class bring an idle parser to the id |
| UbGpsTime.RunIdLength | Software/Firmware/Controller/lib/ubGPSTime/src/ubGPSTime.cpp:104-134 | id and length bring the parser to the payload, or to CK_A for an empty one |
| UbGpsTime.RunIdLow | Software/Firmware/Controller/lib/ubGPSTime/src/ubGPSTime.cpp:104-112 | the id and the low length byte are stored as they come |
| UbGpsTime.LengthHighByte | Software/Firmware/Controller/lib/ubGPSTime/src/ubGPSTime.cpp:114-134 | the high length byte completes the length: an empty payload skips to CK_A, a valid one allocates a buffer of that length |
| UbGpsTime.RunHeader | Software/Firmware/Controller/lib/ubGPSTime/src/ubGPSTime.cpp:73-134 | the six header bytes bring an idle parser to the payload (or CK_A) with the header fields stored |
| UbGpsTime.RunBody | Software/Firmware/Controller/lib/ubGPSTime/src/ubGPSTime.cpp:73-144 | header and payload bring an idle parser to CK_A holding the frame |
| UbGpsTime.RunLast | Software/Firmware/Controller/lib/ubGPSTime/src/ubGPSTime.cpp:151-162 | CK_B makes the parser idle again and frees the payload |
| UbGpsTime.LastDelivers | Software/Firmware/Controller/lib/ubGPSTime/src/ubGPSTime.cpp:151-162 | CK_B delivers the frame with its own value |
| UbGpsTime.RunChecksum | Software/Firmware/Controller/lib/ubGPSTime/src/ubGPSTime.cpp:146-162 | the two checksum bytes end the frame whatever their values |
| UbGpsTime.ChecksumDelivers | Software/Firmware/Controller/lib/ubGPSTime/src/ubGPSTime.cpp:146-162 | the two checksum bytes deliver the frame whatever their values |
| UbGpsTime.ParseFrame | Software/Firmware/Controller/lib/ubGPSTime/src/ubGPSTime.cpp:62-178 | any frame with sync bytes and a payload of at most MAX_PAYLOAD, fed to an idle parser, is delivered exactly once, with its checksum bytes, and leaves the parser idle |
| UbGpsTime.FrameRoundTrip | Software/Firmware/Controller/lib/ubGPSTime/src/ubGPSTime.cpp:62-294 | what `sendMessage` writes, fed to an idle parser, is delivered as the sealed message, and the parser ends idle |
| UbGpsTime.Pow2 | Software/Firmware/Controller/lib/ubGPSTime/src/ubGPSTime.cpp:652-656 | every power of two is positive |
| UbGpsTime.FromLittleEndianBound | Software/Firmware/Controller/lib/ubGPSTime/src/ubGPSTime.cpp:629-645 | n little-endian bytes hold less than 256^n |
| UbGpsTime.LittleEndianDecodes | Software/Firmware/Controller/lib/ubGPSTime/src/ubGPSTime.cpp:629-645 | encoding a value in n little-endian bytes and decoding gives the value modulo 256^n |
| UbGpsTime.LittleEndianEncodes | Software/Firmware/Controller/lib/ubGPSTime/src/ubGPSTime.cpp:629-645 | decoding then encoding gives the bytes back |
| UbGpsTime.GetU1 | Software/Firmware/Controller/lib/ubGPSTime/src/ubGPSTime.cpp:624-627 | the field is the one byte at the offset |
| UbGpsTime.GetU2 | Software/Firmware/Controller/lib/ubGPSTime/src/ubGPSTime.cpp:629-635 | the field is the two bytes at the offset read little-endian |
| UbGpsTime.GetU4 | Software/Firmware/Controller/lib/ubGPSTime/src/ubGPSTime.cpp:637-645 | the field is the four bytes at the offset read little-endian |
| UbGpsTime.GetU4RoundTrip | Software/Firmware/Controller/lib/ubGPSTime/src/ubGPSTime.cpp:637-645 | a `uint32` written little-endian reads back through `getU4` |
| UbGpsTime.GetI4 | Software/Firmware/Controller/lib/ubGPSTime/src/ubGPSTime.cpp:647-650 | the field lies in the `int32_t` range and agrees with `getU4` modulo 2^32 |
| UbGpsTime.SignedField | Software/Firmware/Controller/lib/ubGPSTime/src/ubGPSTime.cpp:647-650 | any `int32_t` written little-endian in two's complement reads back through `getI4` |
| UbGpsTime.GetFlag | Software/Firmware/Controller/lib/ubGPSTime/src/ubGPSTime.cpp:652-656 | a flag is 0 or 1, and 0 for any bit beyond the byte |
| UbGpsTime.FlagsAreBits | Software/Firmware/Controller/lib/ubGPSTime/src/ubGPSTime.cpp:652-656 | `getFlag` yields 0 or 1, and the flags of a byte are its binary digits |
| UbGpsTime.CString | Software/Firmware/Controller/lib/ubGPSTime/src/ubGPSTime.cpp:658-673 | the text is at most `length` characters |
| UbGpsTime.CStringStops | Software/Firmware/Controller/lib/ubGPSTime/src/ubGPSTime.cpp:658-673 | the text is the bytes up to the first NUL, or all `length` bytes when there is none, and contains no NUL |
| UbGpsTime.StatusOf | Software/Firmware/Controller/lib/ubGPSTime/src/ubGPSTime.cpp:515-522 | NAV-STATUS: time of week little-endian at 0, fix type at 4, fix-ok, corrections, time-of-week-valid and week-number-valid as bits 0 to 3 of byte 5, stamped now |
| UbGpsTime.TimeUtcOf | Software/Firmware/Controller/lib/ubGPSTime/src/ubGPSTime.cpp:577-590 | NAV-TIMEUTC: time of week, accuracy, signed nanoseconds and year little-endian at 0, 4, 8 and 12, the date and time bytes at 14 to 18, the three validity flags as bits 0 to 2 of byte 19, stamped now |
| UbGpsTime.VersionLayout | Software/Firmware/Controller/lib/ubGPSTime/src/ubGPSTime.cpp:542-574 | MON-VER has four extensions; one is read exactly when the payload reaches past it, and "N/A" stands for each missing one |
| UbGpsTime.Dispatch | Software/Firmware/Controller/lib/ubGPSTime/src/ubGPSTime.cpp:351-399 | a frame whose handler would read past its payload leaves the records unchanged, and the wait for a response can only end, never start |
| UbGpsTime.ResponsesClearPending | Software/Firmware/Controller/lib/ubGPSTime/src/ubGPSTime.cpp:359-378 | ACK-ACK, ACK-NACK and a MON-VER frame whose strings end inside it end the wait for a response; no other frame touches it |
| UbGpsTime.ShortTimeFrameReadsPastPayload | Software/Firmware/Controller/lib/ubGPSTime/src/ubGPSTime.cpp:384-387 | a zero-length NAV-TIMEUTC frame is delivered by the parser and, as written, handed to a handler that reads twenty bytes of a payload that has none |
| UbGpsTime.StringReadsInsideWhenFits | Software/Firmware/Controller/lib/ubGPSTime/src/ubGPSTime.cpp:658-673 | `getString` stays inside a payload that reaches its end offset |
| UbGpsTime.GuardedDispatchReadsInside | Software/Firmware/Controller/lib/ubGPSTime/src/ubGPSTime.cpp:351-399 | with the guard, a NAV-STATUS, NAV-TIMEUTC or MON-VER handler runs exactly when every byte it reads is inside the payload, storing its record (MON-VER also ending the wait); other such frames change nothing; a frame of the full documented length always qualifies |
| UbGpsTime.ShortVersionHandled | Software/Firmware/Controller/lib/ubGPSTime/src/ubGPSTime.cpp:542-574 | a 35-byte zero MON-VER frame, shorter than the two version strings, is still handled: two empty strings, four "N/A" extensions, and the wait ends |
| UbGpsTime.RateMessage | Software/Firmware/Controller/lib/ubGPSTime/src/ubGPSTime.cpp:417-431 | the CFG-MSG frame carries exactly class, id and rate |
| UbGpsTime.PollRequest | Software/Firmware/Controller/lib/ubGPSTime/src/ubGPSTime.cpp:440-450 | a poll request has an empty payload |
| UbGpsTime.PollFrame | Software/Firmware/Controller/lib/ubGPSTime/src/ubGPSTime.cpp:440-451 | a poll request is sent as sync, class, id, zero length and the checksum of those four bytes |
| UbGpsTime.GpsReceiver.constructor | Software/Firmware/Controller/lib/ubGPSTime/src/ubGPSTime.cpp:11-19 | no serial port, no callback, not initialised, nothing pending, zeroed records, idle parser |
| UbGpsTime.GpsReceiver.Begin | Software/Firmware/Controller/lib/ubGPSTime/src/ubGPSTime.cpp:36-39 | only the serial port becomes known |
| UbGpsTime.GpsReceiver.Attach | Software/Firmware/Controller/lib/ubGPSTime/src/ubGPSTime.cpp:22-26 | only the callback is set |
| UbGpsTime.GpsReceiver.Detach | Software/Firmware/Controller/lib/ubGPSTime/src/ubGPSTime.cpp:29-33 | only the callback is cleared |
| UbGpsTime.GpsReceiver.CalculateChecksum | Software/Firmware/Controller/lib/ubGPSTime/src/ubGPSTime.cpp:218-230 | the result is the Fletcher checksum of `ChecksumInput` |
| UbGpsTime.GpsReceiver.SendMessage | Software/Firmware/Controller/lib/ubGPSTime/src/ubGPSTime.cpp:255-294 | with a port, the bytes written are `Frame` and the message is sealed; without, nothing is written |
| UbGpsTime.GpsReceiver.PollMessage | Software/Firmware/Controller/lib/ubGPSTime/src/ubGPSTime.cpp:440-451 | writes the poll frame when a port is known |
| UbGpsTime.GpsReceiver.RequestVersion | Software/Firmware/Controller/lib/ubGPSTime/src/ubGPSTime.cpp:463-466 | polls MON-VER |
| UbGpsTime.GpsReceiver.RequestStatus | Software/Firmware/Controller/lib/ubGPSTime/src/ubGPSTime.cpp:469-472 | polls NAV-STATUS |
| UbGpsTime.GpsReceiver.RequestTimeUtc | Software/Firmware/Controller/lib/ubGPSTime/src/ubGPSTime.cpp:475-478 | polls NAV-TIMEUTC |
| UbGpsTime.GpsReceiver.SetMessageRate | Software/Firmware/Controller/lib/ubGPSTime/src/ubGPSTime.cpp:417-437 | writes the CFG-MSG frame and, when asked to wait, marks an acknowledgement pending; nothing else changes |
| UbGpsTime.GpsReceiver.SubscribeGpsStatus | Software/Firmware/Controller/lib/ubGPSTime/src/ubGPSTime.cpp:481-484 | sets the rate of NAV-STATUS |
| UbGpsTime.GpsReceiver.SubscribeTimeUtc | Software/Firmware/Controller/lib/ubGPSTime/src/ubGPSTime.cpp:487-490 | sets the rate of NAV-TIMEUTC |
| UbGpsTime.GpsReceiver.GetString | Software/Firmware/Controller/lib/ubGPSTime/src/ubGPSTime.cpp:658-673 | the loop returns `CString` of the field |
| UbGpsTime.GpsReceiver.ReadVersion | Software/Firmware/Controller/lib/ubGPSTime/src/ubGPSTime.cpp:542-561 | the record built is `VersionOf` the frame |
| UbGpsTime.GpsReceiver.ReadExtensions | Software/Firmware/Controller/lib/ubGPSTime/src/ubGPSTime.cpp:548-559 | the four extensions read are exactly `Extension` 0 to 3 of the frame |
| UbGpsTime.ExtensionStep | Software/Firmware/Controller/lib/ubGPSTime/src/ubGPSTime.cpp:548-559 | an extension whose 30 bytes fit is read at the running offset, which then advances by 30; otherwise it is "N/A" and the offset stays |
| UbGpsTime.GpsReceiver.OnVersion | Software/Firmware/Controller/lib/ubGPSTime/src/ubGPSTime.cpp:542-574 | stores the version record and ends the wait |
| UbGpsTime.GpsReceiver.ProcessMessage | Software/Firmware/Controller/lib/ubGPSTime/src/ubGPSTime.cpp:351-399 | the records become `Dispatch` of the old ones |
| UbGpsTime.GpsReceiver.ProcessByte | Software/Firmware/Controller/lib/ubGPSTime/src/ubGPSTime.cpp:70-168 | the parser takes one `ParseByte` step, the frame completed (if any) is `Completed`, and it is dispatched |
| UbGpsTime.GpsReceiver.Process | Software/Firmware/Controller/lib/ubGPSTime/src/ubGPSTime.cpp:62-178 | with a port, the parser ends at `Run` of the bytes, the records at `DispatchAll` of the frames delivered, and the callback sees those frames; without a port nothing changes |
| UbGpsTime.ProcessStep | Software/Firmware/Controller/lib/ubGPSTime/src/ubGPSTime.cpp:68-169 | one byte extends the run and the dispatched frames consistently |
| UbGpsTime.DispatchAllAppend | Software/Firmware/Controller/lib/ubGPSTime/src/ubGPSTime.cpp:68-169 | dispatching ms + done is dispatching ms, then done |
| Gps.GetSpeed | Software/Firmware/Controller/lib/GPS/src/GPS.h:137-176 | the rate is always one of the seven baud rates |
| Gps.SpeedTable | Software/Firmware/Controller/lib/GPS/src/GPS.h:137-176 | each enumeration value selects its own rate, faster for each later value; any other code falls back to 9600 |
| Gps.MinutesToMillis | Software/Firmware/Controller/lib/GPS/src/GPS.h:103-104 | the sync interval is minutes × 60000 whenever that fits in 32 bits |
| Gps.MinutesRoundTrip | Software/Firmware/Controller/lib/GPS/src/GPS.h:103-104 | up to 71582 minutes the conversion is exact and can be undone; a setting of -1 wraps to 2^32 - 60000 |
| Gps.Merged | Software/Firmware/Controller/lib/GPS/src/GPS.h:193-210 | the day of the week is never overwritten |
| Gps.MergeTakesValidParts | Software/Firmware/Controller/lib/GPS/src/GPS.h:198-210 | the time of day is taken exactly when the time of week is valid, the date exactly when the week number is valid; the clock's own fields are kept otherwise |
| Gps.YearOffset | Software/Firmware/Controller/lib/GPS/src/GPS.h:209 | the year byte holds year - 1970 for 1970..2225 and wraps for other years |
| Gps.FullFixIgnoresClock | Software/Firmware/Controller/lib/GPS/src/GPS.h:198-210 | with both halves valid the result depends on the old clock only through the day of the week |
| Gps.SyncStep | Software/Firmware/Controller/lib/GPS/src/GPS.h:191-230 | before the interval passes nothing changes; after it the timestamp moves to now, the clock is set (and the listener told the same time) exactly when a half is valid, and the configured interval is used exactly after a full fix |
| Gps.PartialFixRetries | Software/Firmware/Controller/lib/GPS/src/GPS.h:220-228 | after a sync without a full fix the next message more than 15 s later is acted on |
| Gps.FullFixHolds | Software/Firmware/Controller/lib/GPS/src/GPS.h:191-230 | after a full fix any message inside the configured interval is ignored |
| Gps.Subscriptions | Software/Firmware/Controller/lib/GPS/src/GPS.h:59-60 | after the NMEA-off frames (not modelled), NAV-STATUS is switched off, then NAV-TIMEUTC requested every message interval, both as CFG-MSG frames |
| Gps.GpsClock.constructor | Software/Firmware/Controller/lib/GPS/src/GPS.h:26-35 | timestamp 0, not initialised, no listener, message interval 60; the active interval is whatever the storage held |
| Gps.GpsClock.SetParameters | Software/Firmware/Controller/lib/GPS/src/GPS.h:98-105 | the speed setting selects `GetSpeed` and the interval is `MinutesToMillis` of the setting; nothing else changes |
| Gps.GpsClock.Initialize | Software/Firmware/Controller/lib/GPS/src/GPS.h:51-77 | succeeds exactly when the receiver reports itself initialised, and only then subscribes and starts listening |
| Gps.GpsClock.End | Software/Firmware/Controller/lib/GPS/src/GPS.h:79-84 | not initialised and no longer listening |
| Gps.GpsClock.Attach | Software/Firmware/Controller/lib/GPS/src/GPS.h:86-90 | a listener is set; nothing else changes |
| Gps.GpsClock.Detach | Software/Firmware/Controller/lib/GPS/src/GPS.h:92-96 | the listener is cleared; nothing else changes |
| Gps.GpsClock.Process | Software/Firmware/Controller/lib/GPS/src/GPS.h:107-114 | initialisation is retried on every call until it succeeds, and not repeated after |
| Gps.GpsClock.GpsTimeSync | Software/Firmware/Controller/lib/GPS/src/GPS.h:191-230 | the sync state becomes `SyncStep` of the old one |
| Gps.GpsClock.OnGpsMessage | Software/Firmware/Controller/lib/GPS/src/GPS.h:178-189 | a NAV-TIMEUTC message runs `gpsTimeSync`, any other message changes nothing |
| Controller.HvOn | Software/Firmware/Controller/lib/Controller/src/Controller.h:257-265 | the supply flag is set and nothing else changes; both pins are driven high, exactly when the supply was off |
| Controller.HvOff | Software/Firmware/Controller/lib/Controller/src/Controller.h:267-275 | the supply flag is cleared and nothing else changes; both pins are driven low, exactly when the supply was on |
| Controller.HvIdempotent | Software/Firmware/Controller/lib/Controller/src/Controller.h:257-275 | switching the supply on (or off) twice is switching it once |
| Controller.SwitchMode | Software/Firmware/Controller/lib/Controller/src/Controller.h:284-308 | only the mode changes; the keyboard gets the normal timing and the display is cleared first |
| Controller.EnterMenu | Software/Firmware/Controller/lib/Controller/src/Controller.h:312-323 | the mode becomes the menu and only the mode and the remembered mode change; the keyboard gets the menu timing exactly when the menu was not already shown; the remembered mode stays out of the menu |
| Controller.SwitchModeRules | Software/Firmware/Controller/lib/Controller/src/Controller.h:284-308 | outside the menu the switch toggles calculator and clock and twice restores the mode; from the menu it stores the settings and returns to the remembered mode |
| Controller.MenuRoundTrip | Software/Firmware/Controller/lib/Controller/src/Controller.h:284-323 | entering the menu and switching again returns to the starting mode; entering twice is entering once |
| Controller.RoutesAppend | Software/Firmware/Controller/lib/Controller/src/Controller.h:395-419 | handler calls of two effect lists add up |
| Controller.NoRouteBeforeHandler | Software/Firmware/Controller/lib/Controller/src/Controller.h:379-393 | neither the special events nor the shortcut call a mode's handler |
| Controller.KeyEvent | Software/Firmware/Controller/lib/Controller/src/Controller.h:366-421 | a key event never touches the supply or the auto-off flag, and keeps the remembered mode out of the menu; while auto-off holds it does nothing; otherwise its last effect hands the event to the handler of the mode then current |
| Controller.EventReachesOneHandler | Software/Firmware/Controller/lib/Controller/src/Controller.h:366-421 | while auto-off holds a key event changes nothing; otherwise it reaches exactly one handler, that of the mode in force after the special event, last |
| Controller.BackLightToggle | Software/Firmware/Controller/lib/Controller/src/Controller.h:390-440 | the backlight toggles exactly on a pressed KEY_C with the function key down, nothing else changes, and two such presses restore it |
| Controller.AutoOffCheck | Software/Firmware/Controller/lib/Controller/src/Controller.h:447-472 | the remembered mode and the backlight never change; the mode changes only to the clock in mode `clock`; the supply changes only in an enabled mode, and then it is on exactly when key events are accepted |
| Controller.AutoOffRules | Software/Firmware/Controller/lib/Controller/src/Controller.h:447-472 | mode off does nothing; past the delay, mode on switches the supply off and holds keys off, mode clock forces the clock; within the delay the supply comes on and keys are accepted |
| Controller.InvariantPreserved | Software/Firmware/Controller/lib/Controller/src/Controller.h:284-472 | every operation keeps the remembered mode out of the menu |
| Controller.Supervision.constructor | Software/Firmware/Controller/lib/Controller/src/Controller.h:52-71 | calculator mode remembered as calculator, supply on, backlight off, auto-off clear |
| Controller.Supervision.SetParameters | Software/Firmware/Controller/lib/Controller/src/Controller.h:253-254 | only the auto-off mode and delay change, to the settings read |
| Controller.Supervision.HvOnCall | Software/Firmware/Controller/lib/Controller/src/Controller.h:257-265 | the state and effects follow `HvOn` |
| Controller.Supervision.HvOffCall | Software/Firmware/Controller/lib/Controller/src/Controller.h:267-275 | the state and effects follow `HvOff` |
| Controller.Supervision.SwitchDeviceMode | Software/Firmware/Controller/lib/Controller/src/Controller.h:284-308 | the state and effects follow `SwitchMode` |
| Controller.Supervision.SwitchToMenuMode | Software/Firmware/Controller/lib/Controller/src/Controller.h:312-323 | the state and effects follow `EnterMenu` |
| Controller.Supervision.HandleShortcuts | Software/Firmware/Controller/lib/Controller/src/Controller.h:423-440 | the state and effects follow `Shortcut` |
| Controller.Supervision.OnKeyboardEvent | Software/Firmware/Controller/lib/Controller/src/Controller.h:366-421 | the state and effects follow `KeyEvent` |
| Controller.Supervision.CheckAutoOff | Software/Firmware/Controller/lib/Controller/src/Controller.h:447-472 | the state and effects follow `AutoOffCheck` for the time since the last key |
| Controller.Supervision.ApplyStartupMode | Software/Firmware/Controller/lib/Controller/src/Controller.h:162-174 | both the mode and the remembered mode take the startup mode; another value keeps them |
| ArduinoTypes.Sub32 | Software/Firmware/Controller/lib/GPS/src/GPS.h:194 | `unsigned long` subtraction: the difference, plus 2^32 when it would be negative |

## Left out

- Floating point: the engine computes in `real`, so rounding, infinities and NaN are not modelled. The math library functions are uninterpreted parameters, except where the firmware itself tests their inputs (the domain checks of `sqrt`, `log10`, `ln`, the reciprocal and `tan`).
- `Calculator.Calculator.DoubleToString`: `sprintf("%-.*f")` and `String::toDouble` are parameters of the calculator. The model does not capture the case that turns a printed negative zero into "0", because reals have no negative zero.
- `NixieCalc.Evaluate`: the overflow gate of `calculateValue` bounds only the results that pass through it. Percent (`NixieCalc.cpp:275-303`) and the memory operations (`NixieCalc.cpp:212-240`) write their results directly, so the model promises no bound on those.
- `NixieCalc.PercentAfterOperator`: percent with a pending `pow` changes nothing, as in `NixieCalc.cpp:275-303`; no fallback to dividing by 100 is modelled there.
- `NixieCalc.PercentExamples`: `100 * 10 %` shows 0.1, the display divided by 100, with `*` still pending; the following `=` shows 10.
- Serial I/O, I2C, pins and timers are left out. A serial port is present or absent, received bytes and frames are parameters, and pin writes and requests are returned as effect sequences. `millis()` is a parameter.
- `Gps.GpsClock.GpsTimeSync`: the two `millis()` calls in `gpsTimeSync` (`GPS.h:194`, `GPS.h:228`) are taken to return the same value.
- `Gps.GpsClock.GpsTimeSync`: TimeLib's `breakTime` and `makeTime` are parameters (`Gps.TimeLib`), so calendar arithmetic is not modelled.
- `Gps.GpsClock.Initialize`: whether the receiver is initialised is a parameter. As written, `GPS::begin` calls the receiver's `initialize(false)`, which never sets the flag `GPS::initialize` waits for, so the GPS side would never come up. The model lets the caller decide.
- `Gps.GpsClock.constructor`: the constructor assigns `_gpsSyncIntervalActive` to itself (`GPS.h:32`), which leaves it unset; the model takes its starting value as a parameter.
- `Gps.GpsClock.Process`: the receiver's byte processing is not composed into `Process`. The GPS side and the receiver are connected only through the NAV-TIMEUTC record passed to `OnGpsMessage`.
- The receiver's `initialize` and `waitForResponse` loops with their timeouts, `disableDefaultNMEA`, the verbose printing (`printMessage`, `printHEX`, `enableVerbose`) and the getters that only return fields are not modelled.
- `UbGpsTime.ParseByte`: two guards that never fail on a valid parser (a payload index within the buffer, and the low length byte alone in the length field) are written in, to make the function total. `ParseByteValid` proves the parser stays valid. Received bytes are taken as 0..255, that is, `char c` (`ubGPSTime.cpp:64`) is taken to be unsigned, as it is on the ESP32 compiler; with a signed `char`, the test against 0xB5 could never succeed.
- `KeyboardHandler.SetterBytes`: `setHoldTime`, `setDebounceTime` and `setAutoRepeatInterval` are modelled only by the bytes they write. The I2C transaction and its error result are not modelled. `resetKeyboard`, `requestVersion` and the version getters only send a request or return a field, and are not modelled.
- `Controller.h` calls `setFastAutoRepeatDelay` and `setFastAutoRepeatInterval` (`Controller.h:287-288`, `317-319`), which this revision of `KeyboardHandler.h` does not define. The fast auto-repeat commands are modelled on the keypad side only (`KeyboardFirmware.Keyboard.OnSetFastAutoRepeatInterval`, `OnSetFastAutoRepeatDelay`).
- `UbGpsTime.Dispatch`: this is the guarded dispatch, not `processMessage` as written. Each payload handler runs only when every byte it reads lies inside the payload; for MON-VER, that means its two version strings end inside it. As written, the handlers run on any frame of their class and id (see "## Findings").
- `UbGpsTime.GpsReceiver.ProcessMessage`: applies the same guard as `UbGpsTime.Dispatch`, so it models the corrected dispatch and not the unguarded one.
- The keypad firmware's I2C `receiveEvent` and `requestEvent`, its reset and version handling, and the Keypad library's own scanning and debouncing are not modelled. `KeyboardFirmware` starts from the key-state changes the library reports.
- The main-board `begin` and `process` wiring is not modelled: pin setup, the PIR sensor, the temperature sensor, `showVersion` and the LED colour values of `setBackLight`. The mode handlers (calculator, clock, menu) are reached through recorded `Routed` effects; the supervisor does not call into them.
- The `deviceMode` and `prevDeviceMode` globals of the controller are fields of `Controller.Supervision`.
- The header declaring the `special_keyboard_event` enumeration is not part of this model. `Controller.SpecialEvent` names only the two events the controller tests for, and gives every other value one constructor.
- `Gps.MinutesToMillis`: `minutes * 60 * 1000` is an `int` product, where signed overflow is undefined in C++; the model takes it to wrap on the target, and then converts the result to `unsigned long` modulo 2^32. `Controller.AutoOffCheck` uses the same function for `_autoOffDelay * 60 * 1000`.
- The display driver and the display handler come from different revisions. This `DisplayDriver.h` has no plus-sign field and no case for the unused, plus-sign and menu-sign register types, yet `DisplayHandler.h` calls `setPlusSign` and the IN-12 map uses those types. The model gives the driver a plus-sign flag (`DisplayDriver.DisplayDriver.SetPlusSign`), and as in this driver revision those register types emit no bit.
- The driver's digit and decimal-point buffers start dark (`DisplayDriver.DisplayDriver.constructor`); the firmware leaves them uninitialised.
- The display handler's `displayTest` and `displayTest2` step through delays, and are not modelled. `show(char*)` and `show()` are thin wrappers around `ShowCharacter`.
- `MenuHandler.MenuHandler.FormatDisplay`: only the colour handed to the LEDs is modelled. The `sprintf` text of the menu line, with the setting id, the value and the point that marks the part being edited, is not.
- `KeyboardHandler.KeyboardHandler.constructor`: the firmware's constructor leaves `_notify` uninitialised; only `detach` sets it to `nullptr`. The model starts with no callback, so it does not capture a call through the uninitialised `_notify` before the first `attach`.
- `Setting.Setting.constructor`: the firmware's constructor leaves `_tempValue` uninitialised, while the model starts it at the default. Every path into the menu sets it before it is read (`setTempValue` in `begin`, `setNextSetting` and `setPrevSetting` of `MenuHandler.h`). The getters only return fields, and are not modelled.

## Findings

| source | as written | input that shows it | evidently intended | confidence | as-written member | corrected member |
|---|---|---|---|---|---|---|
| Software/Firmware/Controller/lib/ubGPSTime/src/ubGPSTime.cpp:384-387 | `processMessage` hands a NAV-TIMEUTC frame to its field reader whatever the frame's payload length | a well-formed NAV-TIMEUTC frame with payload length 0 (the shape of the firmware's own poll request): the parser delivers it and the reader reads twenty bytes of a payload that has none | run each payload reader only when the payload holds every byte it reads (for MON-VER, when its version strings end inside it), and leave the records alone otherwise | not executed | UbGpsTime.ShortTimeFrameReadsPastPayload | UbGpsTime.GuardedDispatchReadsInside |
| Software/Firmware/Controller/lib/KeyboardHandler/src/KeyboardHandler.h:135-177 | `setHoldTime`, `setDebounceTime` and `setAutoRepeatInterval` pass their `unsigned int` to `Wire.write`, which sends only its low byte; the keypad reads two bytes, high byte first (`Software/Firmware/Keyboard/src/main.cpp:409-419`), and a missing byte reads as 255 | `setHoldTime(2000)` (`Controller.h:151`) arrives as 53503, and `setAutoRepeatInterval(0)` as 255; only 65535 arrives intact | send the value as two bytes, high byte first | not executed | KeyboardFirmware.SetterValueGarbled | KeyboardFirmware.ValueBytesRoundTrip |
