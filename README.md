# Thermostat control logic in Dafny

This project models the control and formatting logic of two Raspberry Pi
thermostat scripts and proves properties of that model.

- `smart_thermostat.dfy` (module `SmartThermostat`) models
  `Module7_SmartThermostat/Thermostat-1.py`. Its class `TemperatureMachine` covers:
  - the three-state machine `off → heat → cool → off`;
  - an integer set-point that starts at 72 °F and moves by one per button press;
  - the red and blue PWM LEDs that `updateLights` drives;
  - the display loop `manageMyDisplay`. It writes a 16-column, two-line LCD
    message each second, alternates line 2 between the temperature and the
    mode with its set-point, refreshes the LEDs every tenth pass, and writes
    the telemetry record `state,tempF,setPoint` and a line break to the serial
    port every thirtieth pass.
- `temperature_sensor.dfy` (module `TemperatureSensorIntegration`) models
  `Module6_TemperatureSensorIntegration/TemperatureSensorIntegration.py`:
  - the Celsius/Fahrenheit machine `TempMachine`, whose entry hooks keep
    `activeScale` in step with the state;
  - its display loop `displayTemp`;
  - `ManagedDisplay.updateScreen`, the rule that cuts each line to 16 columns,
    pads it to 16 and joins the two lines.
- `text.dfy` (module `Text`) holds the string operations both scripts rely on:
  - Python's `str.ljust`, slicing and `str.upper` on ASCII;
  - decimal rendering of integers, as an f-string does it;
  - a reference decoder (`ParseInt`, `Split`, and `ParseTelemetry` in
    `SmartThermostat`). The scripts have no decoder; it is here to state that the
    telemetry record can be read back without loss.

How the hardware and the loops are modelled:

- In `SmartThermostat`, every operation that reads the sensor takes the
  floored Fahrenheit temperature as an `int` parameter.
- In `TemperatureSensorIntegration`, the Celsius, Fahrenheit and humidity
  readings enter as the strings the script formats them to with one decimal
  place.
- The text of the clock is an input string.
- The LEDs are fields holding `Dark` (after `off()`), `Lit` (after `on()`)
  or `Pulse`.
- `manageMyDisplay` runs over a finite sequence of clock texts and
  temperatures, one pair per pass. It returns the last LCD message and the
  lines written to the serial port, in order.

In the source, `counter` and `altCounter` are local variables of
`manageMyDisplay`, both set to 1 when the loop starts. The model keeps them
local: `Tick` takes them and returns their next values.

`altCounter` follows the code at `Thermostat-1.py:179-189`:
- values 1 to 5 show the temperature;
- values 6 to 10 show the mode;
- the pass that starts at 10 refreshes the LEDs and resets the counter to 1.

That is five passes of each kind in every ten, and the LEDs are refreshed
once every ten passes.

Some functions are definitions that the rows below state properties of; they
have no row of their own:
- `SmartThermostat.Id` is the state's `current_state.id` (`Thermostat-1.py:161`, `:184`).
- `SmartThermostat.SerialOutput` is the record of `setupSerialOutput` (`:163`).
- `SmartThermostat.TelemetryLine` is that record and a line break, as written at `:196`.
- `SmartThermostat.TelemetryFor` is the write decision of `:195-196`.
- `SmartThermostat.DisplayLine` is `.ljust(16)[:16]` (`:177`, `:181`, `:185`).
- `SmartThermostat.Line2Text` is the two texts of line 2 (`:181`, `:185`).
- `SmartThermostat.ShownFor` is the `altCounter < 6` test (`:179`).
- `SmartThermostat.Frame` is `line1 + "\n" + line2` (`:191`).
- `Text.IntToString` is an f-string's rendering of an `int` (`:163`, `:181`, `:185`).
- `Text.Upper` is `str.upper()` on ASCII (`:184`).

## Model

| member | source | states |
|---|---|---|
| SmartThermostat.TemperatureMachine.constructor | Module7_SmartThermostat/Thermostat-1.py:74-78 | a new machine is `off` with set-point 72 and both LEDs off |
| SmartThermostat.Next | Module7_SmartThermostat/Thermostat-1.py:80 | `cycle` is total and always moves to a different state |
| SmartThermostat.CycleOrderThree | Module7_SmartThermostat/Thermostat-1.py:80 | three cycles return to the starting state and two never do |
| SmartThermostat.TemperatureMachine.Cycle | Module7_SmartThermostat/Thermostat-1.py:80-102 | exit hook, transition, entry hook: the state advances by `Next` and the LEDs end up as the policy gives for the new state |
| SmartThermostat.TemperatureMachine.OnEnterHeat | Module7_SmartThermostat/Thermostat-1.py:82-85 | entering heat sets the LEDs by the policy |
| SmartThermostat.TemperatureMachine.OnExitHeat | Module7_SmartThermostat/Thermostat-1.py:87-88 | leaving heat turns the red LED off |
| SmartThermostat.TemperatureMachine.OnEnterCool | Module7_SmartThermostat/Thermostat-1.py:90-93 | entering cool sets the LEDs by the policy |
| SmartThermostat.TemperatureMachine.OnExitCool | Module7_SmartThermostat/Thermostat-1.py:95-96 | leaving cool turns the blue LED off |
| SmartThermostat.TemperatureMachine.OnEnterOff | Module7_SmartThermostat/Thermostat-1.py:98-102 | entering off turns both LEDs off |
| SmartThermostat.TemperatureMachine.ProcessTempStateButton | Module7_SmartThermostat/Thermostat-1.py:104-108 | the state advances by one cycle, the set-point is untouched, the LEDs follow the policy and at most one is lit |
| SmartThermostat.TemperatureMachine.ProcessTempIncButton | Module7_SmartThermostat/Thermostat-1.py:110-114 | the set-point rises by exactly 1, the state is untouched, the LEDs follow the policy and the lit-LED invariant holds |
| SmartThermostat.TemperatureMachine.ProcessTempDecButton | Module7_SmartThermostat/Thermostat-1.py:116-120 | the set-point falls by exactly 1, negative values included; the rest as for the increment |
| SmartThermostat.IncThenDec | Module7_SmartThermostat/Thermostat-1.py:110-120 | the increment then the decrement button bring state and set-point back; the LEDs show the policy for the current temperature, so they come back exactly when they showed it before |
| SmartThermostat.Lights | Module7_SmartThermostat/Thermostat-1.py:122-150 | red is lit only in heat and pulses exactly when temp < set-point; blue is lit only in cool and pulses exactly when temp > set-point; never both lit |
| SmartThermostat.TemperatureMachine.UpdateLights | Module7_SmartThermostat/Thermostat-1.py:122-150 | the LEDs afterwards depend only on state, temperature and set-point, as `Lights` gives them |
| SmartThermostat.TemperatureMachine.SetupSerialOutput | Module7_SmartThermostat/Thermostat-1.py:160-164 | the record is the state id, the decimal temperature and the decimal set-point joined by commas |
| SmartThermostat.SerialOutputFields | Module7_SmartThermostat/Thermostat-1.py:161-163 | the record splits at its commas into exactly its three fields |
| SmartThermostat.TelemetryLineShape | Module7_SmartThermostat/Thermostat-1.py:196 | the line written holds exactly two commas and one line break, which is its last character |
| SmartThermostat.TelemetryRoundTrip | Module7_SmartThermostat/Thermostat-1.py:161-163 | decoding the line written gives back state, temperature and set-point, negative values included |
| SmartThermostat.TelemetryInjective | Module7_SmartThermostat/Thermostat-1.py:161-163 | two machines that write the same line agree on all three values |
| Text.Ljust | Module7_SmartThermostat/Thermostat-1.py:177 | `ljust` pads a short string with blanks to the width and never shortens |
| Text.Truncate | Module7_SmartThermostat/Thermostat-1.py:177 | slicing keeps a prefix of at most the width |
| Text.LjustThenTruncate | Module7_SmartThermostat/Thermostat-1.py:177-185 | `.ljust(16)[:16]` has exactly 16 characters: a shorter string followed by blanks, or a longer one's first 16 |
| Text.FitKeepsPrefix | Module7_SmartThermostat/Thermostat-1.py:177-185 | each column of a fitted line holds the source character when there is one and a blank otherwise |
| Text.NatToStringDigits | Module7_SmartThermostat/Thermostat-1.py:163 | a natural number renders as digits with no leading zero |
| Text.IntToStringIsDecimal | Module7_SmartThermostat/Thermostat-1.py:163 | an integer renders as optional minus and digits, with a minus exactly for negatives |
| Text.IntToStringRoundTrip | Module7_SmartThermostat/Thermostat-1.py:163 | reading the rendered integer back gives the integer |
| SmartThermostat.TempLineReadsBack | Module7_SmartThermostat/Thermostat-1.py:180-181 | the temperature line is "Temp:", the temperature in decimal (read back exactly) and 'F' |
| SmartThermostat.ModeLineReadsBack | Module7_SmartThermostat/Thermostat-1.py:184-185 | the mode line is the state id in capitals, " SP:", the set-point in decimal (read back exactly) and 'F' |
| SmartThermostat.FrameLayout | Module7_SmartThermostat/Thermostat-1.py:177-191 | the LCD message is 16 columns of time, one line break and 16 columns of line 2 |
| SmartThermostat.NextAlt | Module7_SmartThermostat/Thermostat-1.py:179-189 | `altCounter` goes up by one below 10 and wraps to 1 from 10 |
| SmartThermostat.NextCounter | Module7_SmartThermostat/Thermostat-1.py:195-199 | `counter` goes up by one below 30 and wraps to 1 from 30 |
| SmartThermostat.CounterBounds | Module7_SmartThermostat/Thermostat-1.py:169-199 | at the top of every pass `altCounter` is in 1..10 and `counter` in 1..30, so telemetry goes out exactly when `counter` is 30 |
| SmartThermostat.FreshCounters | Module7_SmartThermostat/Thermostat-1.py:169-199 | on pass k+1 line 2 is the temperature exactly when k mod 10 < 5, and telemetry goes out exactly when k+1 is a multiple of 30 |
| SmartThermostat.AltCounterPeriod | Module7_SmartThermostat/Thermostat-1.py:179-189 | `altCounter` after k passes is the start value advanced k steps modulo 10 |
| SmartThermostat.CounterPeriod | Module7_SmartThermostat/Thermostat-1.py:195-199 | `counter` after k passes is the start value advanced k steps modulo 30 |
| SmartThermostat.DisplayAlternation | Module7_SmartThermostat/Thermostat-1.py:179-189 | pass t shows the temperature exactly on passes 1..5 of each ten and refreshes the LEDs exactly when t is a multiple of 10 |
| SmartThermostat.QuietBetweenWrites | Module7_SmartThermostat/Thermostat-1.py:195-199 | nothing is written on the 29 passes after a write |
| SmartThermostat.WritesEveryThirtiethTick | Module7_SmartThermostat/Thermostat-1.py:195-199 | over 30m passes the writes fall on passes 30, 60, ..., 30m and no others |
| SmartThermostat.NinetyTicks | Module7_SmartThermostat/Thermostat-1.py:195-199 | over 90 passes the writes fall on passes 30, 60 and 90 only |
| SmartThermostat.AtWriteTicksLength | Module7_SmartThermostat/Thermostat-1.py:195-197 | the serial port receives one line per write pass |
| SmartThermostat.AtWriteTicksEntry | Module7_SmartThermostat/Thermostat-1.py:195-197 | the j-th line received is the one built on the j-th write pass |
| SmartThermostat.AtThirtiethEntry | Module7_SmartThermostat/Thermostat-1.py:195-197 | after 30m passes the j-th thing written is the one built on pass 30(j+1) |
| SmartThermostat.SerialEveryThirtiethTick | Module7_SmartThermostat/Thermostat-1.py:195-197 | after 30m passes the port holds m lines, line j carrying the temperature of pass 30(j+1) |
| SmartThermostat.LedsAfterLastRefresh | Module7_SmartThermostat/Thermostat-1.py:186-189 | the LEDs keep their setting for nine passes and afterwards show the policy for the temperature of the last pass numbered a multiple of ten |
| SmartThermostat.TemperatureMachine.Tick | Module7_SmartThermostat/Thermostat-1.py:171-199 | one pass: the LCD message for the line-2 choice, the telemetry line exactly when `counter` is a multiple of 30, the next counters, LEDs refreshed exactly when `altCounter` starts at 10 or more |
| SmartThermostat.TemperatureMachine.Pass | Module7_SmartThermostat/Thermostat-1.py:171-199 | pass i of the loop extends the serial output and the LED history by that pass, keeping the lit-LED invariant |
| SmartThermostat.TemperatureMachine.ManageMyDisplay | Module7_SmartThermostat/Thermostat-1.py:168-203 | the loop from fresh counters leaves the last pass's message on the LCD, has written exactly the telemetry lines of the write passes, and leaves the LEDs as the last refresh set them |
| TemperatureSensorIntegration.Toggle | Module6_TemperatureSensorIntegration/TemperatureSensorIntegration.py:88 | `cycle` always changes the scale |
| TemperatureSensorIntegration.CycleTwice | Module6_TemperatureSensorIntegration/TemperatureSensorIntegration.py:88 | two cycles return to the starting state |
| TemperatureSensorIntegration.ScaleChar | Module6_TemperatureSensorIntegration/TemperatureSensorIntegration.py:90-98 | the entry hooks give 'C' exactly for Celsius and 'F' exactly for Fahrenheit |
| TemperatureSensorIntegration.TempMachine.constructor | Module6_TemperatureSensorIntegration/TemperatureSensorIntegration.py:74-81 | a new machine is in Celsius with `activeScale` 'C' |
| TemperatureSensorIntegration.TempMachine.OnEnterCelsius | Module6_TemperatureSensorIntegration/TemperatureSensorIntegration.py:90-93 | entering Celsius sets `activeScale` to 'C' |
| TemperatureSensorIntegration.TempMachine.OnEnterFahrenheit | Module6_TemperatureSensorIntegration/TemperatureSensorIntegration.py:95-98 | entering Fahrenheit sets `activeScale` to 'F' |
| TemperatureSensorIntegration.TempMachine.ProcessButton | Module6_TemperatureSensorIntegration/TemperatureSensorIntegration.py:100-103 | a press toggles the state, and `activeScale` matches the new state whatever it was before |
| Text.TruncateThenLjust | Module6_TemperatureSensorIntegration/TemperatureSensorIntegration.py:62-63 | `line[:16].ljust(16)` has exactly 16 characters: a shorter line followed by blanks, or a longer one's first 16 |
| Text.FitOrdersAgree | Module6_TemperatureSensorIntegration/TemperatureSensorIntegration.py:62-63 | cutting then padding gives the same line as padding then cutting, the order the other script uses |
| TemperatureSensorIntegration.FitColumns | Module6_TemperatureSensorIntegration/TemperatureSensorIntegration.py:62-63 | every fitted line is 16 characters |
| TemperatureSensorIntegration.ScreenMessage | Module6_TemperatureSensorIntegration/TemperatureSensorIntegration.py:57-65 | the message is 33 characters: the fitted first line, a line break at index 16, the fitted second line |
| TemperatureSensorIntegration.ScreenMessageSingleBreak | Module6_TemperatureSensorIntegration/TemperatureSensorIntegration.py:65 | when neither line holds a line break, index 16 holds the only one |
| TemperatureSensorIntegration.ManagedDisplay.UpdateScreen | Module6_TemperatureSensorIntegration/TemperatureSensorIntegration.py:57-65 | the LCD afterwards holds exactly that message |
| TemperatureSensorIntegration.ReadingLine | Module6_TemperatureSensorIntegration/TemperatureSensorIntegration.py:127-132 | line 2 holds the Celsius reading and 'C' exactly when `activeScale` is 'C', otherwise the Fahrenheit reading and 'F', then the humidity and '%' |
| TemperatureSensorIntegration.TempMachine.DisplayTemp | Module6_TemperatureSensorIntegration/TemperatureSensorIntegration.py:121-138 | pass i shows the time and the reading in the active scale, and the LCD ends with the last pass's message |

## Left out

- Hardware is left out because it consists of calls into drivers that cannot be seen:
  - the I2C bus and the AHTx0 sensor;
  - the character-LCD driver, its `clear` and `cleanupDisplay`, and pin `deinit`;
  - the gpiozero `Button`, `LED` and `PWMLED` objects;
  - the pyserial port and its UTF-8 encoding.

  The LCD is modelled as the last message written to it and the serial port as
  the list of lines written.
- Concurrency and timing are left out: the display thread, `sleep`, the
  `endDisplay` flag and the `KeyboardInterrupt` shutdown. The loops run for as
  many passes as the input sequences have entries.
- Floating point is left out: `getFahrenheit`, `getCelsius`, `floor` and the
  `:0.1f` formatting. The floored Fahrenheit value enters as an `int`, and
  Module6's formatted readings enter as strings.
- `datetime.now().strftime` is left out because it depends on the wall clock.
  Its text is an input.
- The `DEBUG` prints are left out because they have no effect on the state.
- The dispatch of the `statemachine` library is left out. Each transition is
  an explicit function, followed by the hooks the library would call.
- SmartThermostat.TemperatureMachine.ManageMyDisplay assumes that no button is
  pressed during the loop, so state and set-point stay fixed while it runs. It
  also takes one temperature per pass, shared by line 2, the LED refresh and
  the telemetry record, where the source reads the sensor once for each.
- TemperatureSensorIntegration.TempMachine.DisplayTemp likewise assumes that
  no button is pressed while it runs.
- The boot code at `Thermostat-1.py:205-227` and `TemperatureSensorIntegration.py:140-159` (button wiring, start of
  the thread) is not modelled. A client run of construction, button presses
  and a refresh is `SmartThermostat.ButtonScenario`.
