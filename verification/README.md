# HC-SR04 distance measurement on the MSP430FR5969: a Dafny model

This project models one pass of the measurement loop of the polling HC-SR04 driver in
`main.c`. It covers:

- the trigger pulse (2 us low, then 10 us high), timed with `delay_us`;
- `pulseIn`, which bounds the echo pulse with two polling loops guarded by a 16-bit
  countdown and reads the free-running timer TA0R at each edge;
- the correction for the timer wrapping past 0xFFFF;
- the conversion `pulse_width / 58` to centimetres and the filter to [2, 400];
- the LED decision;
- the report line `Distance: <n> cm\r\n`, rendered by `int_to_str` into a 20-character
  buffer and sent up to its NUL by `uart_puts`.

On the MSP430 `unsigned int` is 16 bits wide, so all of this arithmetic is modelled
modulo 2^16 (module `Uint16`).

The hardware is replaced by data:

- The echo input P2.4 is a trace `seq<bool>` with one level per poll of either wait loop.
  Polls past the end of the trace read low, as an idle sensor holds the line.
- TA0R is represented by the two values it shows when `pulseIn` reads it: `startTick`
  after the rising wait, `stopTick` after the falling wait.

Modules:

- `Uint16`: 16-bit unsigned subtraction, addition and post-decrement.
- `PulseCapture`:
  - `pulseIn` as written (`WaitPost`, `Capture`, and the imperative `WaitLoop` / `PulseIn`);
  - the pre-decrement variant (`WaitPre`, `CaptureCorrected`);
  - the elapsed-tick formula (`Elapsed`);
  - lemmas that characterise exactly when each guard check fires.
- `Distance`: `/ 58` and the [2, 400] filter.
- `Decimal`:
  - `int_to_str` (`IntToStr`, `CollectDigits`) against the reference rendering `DecimalString`;
  - a decimal reader `ParseDecimal`, used for the round trip in both directions;
  - what `uart_puts` sends from a NUL-terminated buffer (`UntilNul`).
- `Cycle`:
  - the trigger trace and `delay_us`;
  - the per-width `Report` (distance, LED, line);
  - one loop iteration, both as a function (`MeasurementCycle`) and as the imperative
    `LoopBody`.
- `Scenarios`: worked cycles, plus the two timeout behaviours listed under Findings.

The two guard checks of `pulseIn` do not behave as their purpose states: a wait with no
edge within `TIMEOUT` polls should return 0. `MeasurementCycle` and `LoopBody` follow the
code as written. `MeasurementCycleCorrected` runs the same cycle on the corrected capture
(see Findings). The report properties (`ReportFor`, `ReportLine`) hold for every width,
so they cover both cycles.

## Model

| member | source | states |
|---|---|---|
| Uint16.Sub | main.c:59 | `stop - start` on unsigned ints is the true difference, plus 2^16 when that is negative |
| Uint16.Add | main.c:60 | unsigned addition is the true sum, minus 2^16 when it exceeds 0xFFFF |
| Uint16.Dec | main.c:46 | the value `timeout--` stores: 0 wraps to 0xFFFF, anything else goes down by one |
| Uint16.SubAddInverse | main.c:59 | adding the 16-bit difference back to the subtrahend recovers the minuend |
| PulseCapture.WaitPost | main.c:46 | the post-decrement wait reads the echo at least once and at most `timeout + 1` times |
| PulseCapture.WaitPostStep | main.c:46 | one iteration of `while (cond && timeout--)`: an edge stops with the guard unchanged; a guard at 0 stops and leaves 0xFFFF; otherwise the rest of the loop starts one poll later with the guard one lower |
| PulseCapture.WaitLoop | main.c:46 | the imperative polling loop (echo test first, then `timeout--`) stops at the poll, and leaves the guard, that the recursive `WaitPost` describes |
| PulseCapture.WaitPostShape | main.c:46 | every poll but the last saw the waited-on level; when the last saw an edge the guard lost one per earlier poll; otherwise the loop made `timeout + 1` polls and left 0xFFFF |
| PulseCapture.WaitPostEdge | main.c:46 | when the first edge is `k <= timeout` polls away, the loop makes `k + 1` polls and leaves `timeout - k` |
| PulseCapture.WaitPostExhausted | main.c:46 | with no edge in `timeout + 1` polls, the loop makes `timeout + 1` polls and leaves 0xFFFF, not 0 |
| PulseCapture.WaitPostGuardZero | main.c:46-47 | the guard is 0 after the loop exactly when the first edge is exactly `timeout` polls away |
| PulseCapture.Elapsed | main.c:58-60 | the wrap-corrected width is `(stop - start) mod 2^16`, and it is at least 1 when the timer wrapped |
| PulseCapture.ElapsedInverse | main.c:58-60 | adding the width to the start reading in 16-bit arithmetic gives the stop reading |
| PulseCapture.ElapsedCases | main.c:58-60 | the width is `stop - start` without wrap, and `65536 - start + stop` with wrap |
| PulseCapture.Capture | main.c:42-61 | `pulseIn` as written reads the echo at most `2 * (TIMEOUT + 1)` times |
| PulseCapture.PulseIn | main.c:42-61 | the imperative `pulseIn`, in the statement order of main.c, returns the width and poll count of `Capture` |
| PulseCapture.RiseEndsAt | main.c:46 | the rising wait makes `r + 1` polls, the last of them poll `r`, and leaves a nonzero guard when `r` is the first high poll before `TIMEOUT`, or when `r` is `TIMEOUT` and the line stays low through poll `TIMEOUT` |
| PulseCapture.RiseGuardZeroExactly | main.c:46-47 | the first `return 0` is taken if and only if the echo is low on polls 0 to `TIMEOUT - 1` and high on poll `TIMEOUT` |
| PulseCapture.FallGuardZeroExactly | main.c:52-56 | the second `return 0` is taken if and only if the echo is high for `TIMEOUT` polls after the rising wait ended and low on the next poll |
| PulseCapture.TimedWidth | main.c:56-60 | a result that reaches the timer arithmetic is the wrap-corrected difference of the two readings; every other exit returns 0 |
| PulseCapture.NeverRisingEchoIsMeasured | main.c:46-60 | an echo that stays low for `TIMEOUT + 2` polls does not take a `return 0`: after `TIMEOUT + 2` polls `pulseIn` returns the wrap-corrected difference of the two timer readings |
| PulseCapture.StuckHighEchoIsMeasured | main.c:46-60 | an echo that stays high for `TIMEOUT + 2` polls does not take a `return 0` either: `pulseIn` returns the wrap-corrected difference of the two timer readings |
| PulseCapture.WaitPre | main.c:46 | the pre-decrement wait reads the echo at least once and at most `timeout` times |
| PulseCapture.WaitPreShape | main.c:46 | every poll but the last saw the waited-on level; when the last saw no edge, the loop made `timeout` polls and left the guard at 0 |
| PulseCapture.WaitPreEdge | main.c:46 | with pre-decrement, an edge `k < timeout` polls away ends the loop after `k + 1` polls with a nonzero guard |
| PulseCapture.WaitPreExhausted | main.c:46 | with pre-decrement, `timeout` polls without an edge end the loop with the guard at 0 |
| PulseCapture.WaitPreGuardZero | main.c:46-47 | with pre-decrement, the guard is 0 after the loop if and only if none of its `timeout` polls saw an edge |
| PulseCapture.WaitPreEdgeSeen | main.c:46 | with pre-decrement, a nonzero guard means the last poll saw the edge |
| PulseCapture.CaptureCorrected | main.c:42-61 | with pre-decrement guards, `pulseIn` reads the echo at most `2 * TIMEOUT` times, and a nonzero result always comes from the timer arithmetic |
| PulseCapture.CorrectedRiseTimeout | main.c:46-47 | with pre-decrement, the first `return 0` is taken if and only if the echo is low on all of the first `TIMEOUT` polls |
| PulseCapture.CorrectedFallTimeout | main.c:52-56 | with pre-decrement, the second `return 0` is taken if and only if the echo stays high for `TIMEOUT` polls after its rising edge |
| PulseCapture.CorrectedWidthNeedsBothEdges | main.c:42-61 | with pre-decrement, a timed result implies a high poll before `TIMEOUT` followed by a low poll within `TIMEOUT` polls, and the result is the corrected timer difference |
| Distance.Centimetres | main.c:108 | the distance is the whole number of 58-tick steps in the width, rounded down |
| Distance.Filter | main.c:111 | the filter outputs 0 or a value in [2, 400]; in-range values pass through unchanged |
| Distance.DistanceCm | main.c:107-111 | the filtered distance is 0 or in [2, 400], and a nonzero distance brackets the width between `d * 58` and `(d + 1) * 58` |
| Distance.ValidWidthWindow | main.c:108-111 | a width gives a nonzero distance if and only if it lies in [116, 23257] |
| Distance.NoReadingIsSentinel | main.c:107-111 | the 0 returned by a timed-out `pulseIn` becomes distance 0 |
| Decimal.DigitChar | main.c:70 | `(d % 10) + '0'` is a decimal digit character |
| Decimal.DigitValue | main.c:70 | reading a digit character gives back the digit that `DigitChar` renders as it |
| Decimal.Digits | main.c:69-73 | the digits of `n` are decimal characters; they are empty exactly for 0, and the first is never '0' |
| Decimal.DecimalString | main.c:66-74 | the text for `n` is nonempty decimal digits, and it starts with '0' only when it is "0" |
| Decimal.UntilNul | main.c:32-34 | `uart_puts` sends a NUL-free prefix of the buffer, stopping at the first NUL |
| Decimal.ParseDigits | main.c:69-73 | reading the collected digits back gives the number |
| Decimal.ParseDecimalString | main.c:64-75 | round trip: reading back what `int_to_str` writes gives the number |
| Decimal.DigitsOfParse | main.c:69-73 | reverse round trip: digits without a leading zero are exactly the rendering of the number they denote |
| Decimal.DecimalStringOfParse | main.c:64-75 | reverse round trip: canonical decimal text is exactly what `int_to_str` writes for its value |
| Decimal.DigitsLength | main.c:68-70 | a number below 10^k has at most k digits |
| Decimal.DecimalStringFits | main.c:68 | a 16-bit number has at most five digits, so `temp[10]` and `buffer[20]` are not overrun |
| Decimal.DigitsStep | main.c:70 | `num /= 10` drops the last digit, and `num % 10` is that digit |
| Decimal.CollectDigits | main.c:68-70 | the `while (num > 0)` loop stores the digits of `num` in `temp`, least significant first |
| Decimal.IntToStr | main.c:64-75 | `int_to_str` writes the decimal text of the number followed by a NUL, and leaves the rest of the buffer untouched |
| Decimal.SentDigits | main.c:118-120 | what `uart_puts(buffer)` sends after `int_to_str` is exactly the decimal text of the distance |
| Cycle.DelayUs | main.c:37-39 | `while (us--)` runs its body exactly `us` times |
| Cycle.AppendTimes | main.c:102-104 | running two event sequences one after the other adds their high and low times, the second starting at the level the first left |
| Cycle.TriggerPulse | main.c:102-104 | whatever its previous level, the trigger is five events: the first three hold it low for 2 us and leave it high, the fourth holds it high for 10 us, and the whole sequence leaves it low with 2 us low and 10 us high in total |
| Cycle.EmitTrigger | main.c:102-104 | the pin writes and `delay_us` calls of the loop produce that trigger sequence |
| Cycle.ReportLine | main.c:119-121 | the line is "Distance: ", then decimal digits that read back as the distance, with no leading zero except for the single "0", then " cm\r\n", with at most five digits |
| Cycle.ReportFor | main.c:107-121 | the reported distance is 0 or in [2, 400]; the LED is on if and only if the distance is nonzero, which holds if and only if the width is in [116, 23257]; a nonzero distance is the width divided by 58, rounded down |
| Cycle.MeasurementCycle | main.c:100-121 | one iteration as written lights the LED only after a width from the timer arithmetic, and reads the echo at most `2 * (TIMEOUT + 1)` times |
| Cycle.MeasurementCycleCorrected | main.c:100-121 | with pre-decrement guards, the LED is lit only after a timed width, and the echo is read at most `2 * TIMEOUT` times |
| Cycle.LoopBody | main.c:100-121 | the imperative loop body (trigger, `pulseIn`, `/ 58`, filter, LED, `int_to_str`, three `uart_puts`) produces the trigger, LED, line and poll count of `MeasurementCycle` |
| Scenarios.ReportOfDistance | main.c:107-121 | a width that converts to an in-range distance gives that distance, the LED on, and the line with its decimal text |
| Scenarios.SentinelReport | main.c:111-121 | a width the filter rejects gives distance 0, the LED off, and the line "Distance: 0 cm\r\n" |
| Scenarios.ShortEchoPolls | main.c:42-61 | an echo high on polls 1 and 2 is timed after 4 polls, from the two timer readings |
| Scenarios.ScenarioNoWrap | main.c:58-121 | readings 1000 and 1500 give 500 ticks, 8 cm, the LED on, and "Distance: 8 cm\r\n" |
| Scenarios.ScenarioWrap | main.c:58-121 | readings 60000 and 500 give 6036 ticks, 104 cm, the LED on, and "Distance: 104 cm\r\n" |
| Scenarios.ScenarioTooClose | main.c:107-121 | a 100-tick echo (1 cm) is reported as 0 with the LED off |
| Scenarios.SilentEchoReturnsTimerDifference | main.c:46-54 | as written, with no echo at all, `pulseIn` returns the few ticks between its two timer reads (3 for reads 1000 and 1003) instead of 0; the report still shows 0 cm with the LED off |
| Scenarios.StuckEchoReportsDistance | main.c:53-56 | as written, with the echo stuck high, the loop reports a distance computed from the two timer reads; in the instance with reads 0 and 5800 it reports 100 cm and lights the LED |
| Scenarios.CorrectedSilentEchoIsSentinel | main.c:46-47 | with pre-decrement, an echo that does not rise within `TIMEOUT` polls makes `pulseIn` return 0 and is reported as 0 with the LED off, whatever the timer shows |
| Scenarios.CorrectedStuckEchoIsSentinel | main.c:53-56 | with pre-decrement, an echo that stays high for `TIMEOUT` polls after rising is reported as 0 with the LED off |
| Scenarios.CorrectedLedNeedsEcho | main.c:100-114 | with pre-decrement, the LED comes on only after a rising edge within `TIMEOUT` polls and a falling edge within `TIMEOUT` polls after it |

## Left out

- UART register programming and byte transmission (`uart_init`, `uart_putc`, main.c:16-30). These are peripheral I/O. The model states only which characters `uart_puts` sends (`UntilNul`).
- Watchdog, clock, GPIO and Timer_A set-up (main.c:78-98). This is register configuration with no logic. The start-up banner (main.c:95) is a fixed string sent once.
- `__delay_cycles` inside `delay_us` and the 16000-cycle pause between iterations (main.c:123). These take real time. `DelayUs` counts loop iterations, and the trigger trace records microseconds as data.
- The `while(1)` repetition. Each iteration is independent, so one iteration is modelled.
- How TA0R advances while the loops poll. TA0R and the CPU share the 1 MHz clock and no interrupt is enabled, so on the device the difference of the two reads is, modulo 2^16, the number of CPU cycles between them: a per-poll cost fixed by the build times the falling wait's poll count, plus a fixed overhead. The model takes the two reads as inputs and does not relate them to the number of polls.
- The echo level read by polls past the end of the trace is taken to be low. This is a modelling convention for a finite trace, not something the code decides.
- The contents of `temp` and `buffer` before `int_to_str` writes them. `temp` starts as NULs, and the caller supplies `buffer`. Only the written part is read.
- `int i`, `j` and `k` in `int_to_str` are treated as unbounded. They never exceed 6 (`DecimalStringFits`), so their 16-bit width does not matter.
- PulseCapture.Capture: does not state which exit corresponds to which echo shape in its own contract. `RiseGuardZeroExactly`, `FallGuardZeroExactly` and `TimedWidth` state this separately.
- Cycle.EmitTrigger: states only that it produces `TriggerPulse()`. The timing facts are stated on `TriggerPulse`.

## Findings

| source | as written | input that shows it | evidently intended | confidence | as-written member | corrected member |
|---|---|---|---|---|---|---|
| main.c:46-47 | `while(... && timeout--)` leaves 0xFFFF when the guard runs out, so `if(timeout == 0) return 0;` does not fire when the echo never rises; the falling wait then stops on its first poll and `pulseIn` returns the small nonzero difference of two timer reads a few cycles apart | echo low on every poll, TA0R read as 1000 then 1003: `pulseIn` returns 3, not the sentinel 0 (the `/ 58` conversion then hides it, and the line reads "Distance: 0 cm") | no rising edge within `TIMEOUT` polls returns 0 (for example `while(... && --timeout)`) | not executed | Scenarios.SilentEchoReturnsTimerDifference | Scenarios.CorrectedSilentEchoIsSentinel |
| main.c:53-56 | the same post-decrement in the falling wait, so an echo stuck high is not reported as a timeout; on the device the width is the falling loop's 30001-iteration cycle count modulo 2^16, a number fixed by the build, and the loop reports a distance and lights the LED whenever that number lands in [116, 23257] | echo high on every poll; in the model instance with TA0R read as 0 then 5800 (a build whose loop takes 5800 ticks modulo 2^16), `pulseIn` returns 5800 and the loop prints "Distance: 100 cm" with the LED on | no falling edge within `TIMEOUT` polls returns 0 | not executed | Scenarios.StuckEchoReportsDistance | Scenarios.CorrectedStuckEchoIsSentinel |

Both rows share a root cause: the `timeout == 0` check fires only when the edge arrives
exactly on poll `TIMEOUT` (`PulseCapture.RiseGuardZeroExactly`,
`PulseCapture.FallGuardZeroExactly`). The corrected capture, `CaptureCorrected`, uses
pre-decremented guards. `CorrectedRiseTimeout`, `CorrectedFallTimeout` and
`CorrectedWidthNeedsBothEdges` prove that it takes a `return 0` exactly when an edge is missing.
