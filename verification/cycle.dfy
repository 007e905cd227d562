/** One pass of the measurement loop in `main` (main.c:100-124): the trigger pulse,
    `pulseIn`, conversion and filtering, the LED, and the report line sent over the
    serial port. */
module Cycle {
  import opened Uint16
  import opened PulseCapture
  import opened Distance
  import opened Decimal

  /** Microseconds the trigger is held low before the pulse. */
  const TRIGGER_LOW_US: U16 := 2
  /** Microseconds the trigger is held high. */
  const TRIGGER_HIGH_US: U16 := 10
  /** Size of the character buffer the loop renders the distance into. */
  const BUFFER_SIZE: nat := 20
  const LINE_PREFIX: string := "Distance: "
  const LINE_SUFFIX: string := " cm\r\n"

  /** What the loop does to the trigger pin: drive it to a level, or busy-wait. */
  datatype TriggerEvent = Drive(high: bool) | Delay(us: U16)

  /** Microseconds the trigger line spends high while `t` runs, starting at level `high`. */
  function HighTime(t: seq<TriggerEvent>, high: bool): nat
  {
    if t == [] then 0
    else match t[0]
      case Drive(level) => HighTime(t[1..], level)
      case Delay(us) => (if high then us else 0) + HighTime(t[1..], high)
  }

  /** Microseconds the trigger line spends low while `t` runs, starting at level `high`. */
  function LowTime(t: seq<TriggerEvent>, high: bool): nat
  {
    if t == [] then 0
    else match t[0]
      case Drive(level) => LowTime(t[1..], level)
      case Delay(us) => (if high then 0 else us) + LowTime(t[1..], high)
  }

  /** The trigger level after `t` has run, starting at level `high`. */
  function LevelAfter(t: seq<TriggerEvent>, high: bool): bool
  {
    if t == [] then high
    else match t[0]
      case Drive(level) => LevelAfter(t[1..], level)
      case Delay(_) => LevelAfter(t[1..], high)
  }

  /** Running `a` and then `b` spends the times of `a`, then those of `b` started at the
      level `a` left. */
  lemma {:induction false} AppendTimes(a: seq<TriggerEvent>, b: seq<TriggerEvent>, high: bool)
    ensures HighTime(a + b, high) == HighTime(a, high) + HighTime(b, LevelAfter(a, high))
    ensures LowTime(a + b, high) == LowTime(a, high) + LowTime(b, LevelAfter(a, high))
    ensures LevelAfter(a + b, high) == LevelAfter(b, LevelAfter(a, high))
    decreases |a|
  {
    if a != [] {
      assert (a + b)[0] == a[0] && (a + b)[1..] == a[1..] + b;
      match a[0]
      case Drive(level) => AppendTimes(a[1..], b, level);
      case Delay(_) => AppendTimes(a[1..], b, high);
    } else {
      assert a + b == b;
    }
  }

  /** The pin held low for 2 us and then driven high: the first three trigger events. */
  const TRIGGER_ARMED: seq<TriggerEvent> := [Drive(false), Delay(TRIGGER_LOW_US), Drive(true)]

  /** The 10 us high hold and the final drive low: the last two trigger events. */
  const TRIGGER_RELEASE: seq<TriggerEvent> := [Delay(TRIGGER_HIGH_US), Drive(false)]

  /** Times and final levels of the armed prefix, of the prefix through the high hold,
      and of the whole trigger sequence, from the level `high` the pin held before. */
  lemma TriggerPhases(high: bool)
    ensures LevelAfter(TRIGGER_ARMED, high) && LowTime(TRIGGER_ARMED, high) == TRIGGER_LOW_US && HighTime(TRIGGER_ARMED, high) == 0
    ensures LevelAfter(TRIGGER_ARMED + [Delay(TRIGGER_HIGH_US)], high)
    ensures HighTime(TRIGGER_ARMED + [Delay(TRIGGER_HIGH_US)], high) == TRIGGER_HIGH_US
    ensures HighTime(TRIGGER_ARMED + TRIGGER_RELEASE, high) == TRIGGER_HIGH_US
    ensures LowTime(TRIGGER_ARMED + TRIGGER_RELEASE, high) == TRIGGER_LOW_US
    ensures !LevelAfter(TRIGGER_ARMED + TRIGGER_RELEASE, high)
  {
    AppendTimes([Drive(false), Delay(TRIGGER_LOW_US)], [Drive(true)], high);
    AppendTimes([Delay(TRIGGER_HIGH_US)], [Drive(false)], true);
    AppendTimes(TRIGGER_ARMED, TRIGGER_RELEASE, high);
    AppendTimes(TRIGGER_ARMED, [Delay(TRIGGER_HIGH_US)], high);
  }

  /** The trigger sequence of main.c:102-104: whatever the pin held before, its first
      three events hold it low for 2 us and leave it high, the fourth holds it high for
      10 us, and the fifth drives it low again. */
  function TriggerPulse(): (t: seq<TriggerEvent>)
    ensures |t| == 5
    ensures forall high :: LevelAfter(t[..3], high) && LowTime(t[..3], high) == TRIGGER_LOW_US && HighTime(t[..3], high) == 0
    ensures forall high :: LevelAfter(t[..4], high) && HighTime(t[..4], high) == TRIGGER_HIGH_US
    ensures forall high :: HighTime(t, high) == TRIGGER_HIGH_US
    ensures forall high :: LowTime(t, high) == TRIGGER_LOW_US
    ensures forall high :: !LevelAfter(t, high)
  {
    TriggerPhases(false);
    TriggerPhases(true);
    assert (TRIGGER_ARMED + TRIGGER_RELEASE)[..3] == TRIGGER_ARMED;
    assert (TRIGGER_ARMED + TRIGGER_RELEASE)[..4] == TRIGGER_ARMED + [Delay(TRIGGER_HIGH_US)];
    TRIGGER_ARMED + TRIGGER_RELEASE
  }

  /** main.c:102-104 with the imperative `DelayUs` loop in place of the constant
      delays: the events it records are the trigger sequence. */
  method EmitTrigger() returns (trigger: seq<TriggerEvent>)
    ensures trigger == TriggerPulse()
  {
    trigger := [Drive(false)];
    var waited := DelayUs(TRIGGER_LOW_US);
    trigger := trigger + [Delay(waited), Drive(true)];
    waited := DelayUs(TRIGGER_HIGH_US);
    trigger := trigger + [Delay(waited), Drive(false)];
    assert trigger == [Drive(false)] + ([Delay(TRIGGER_LOW_US)] + ([Drive(true)] + ([Delay(TRIGGER_HIGH_US)] + [Drive(false)])));
  }

  /** `delay_us(us)`: `while (us--)` runs its body exactly `us` times; the final
      post-decrement leaves the counter wrapped to 0xFFFF. */
  method DelayUs(us: U16) returns (iterations: nat)
    ensures iterations == us
  {
    var n := us;
    iterations := 0;
    while true
      invariant iterations + n == us
      decreases n
    {
      var guard := n;
      n := Dec(n);
      if guard == 0 {
        break;
      }
      iterations := iterations + 1;
    }
  }

  /** What the loop body does with a width: the filtered distance, the LED, and the
      line sent over the serial port. */
  datatype Report = Report(distance: U16, led: bool, line: string)

  /** The line main.c:119-121 sends for a distance: the fixed prefix, the rendered
      number, the fixed suffix. */
  function ReportLine(distance: U16): (line: string)
    ensures |LINE_PREFIX| + |LINE_SUFFIX| < |line| <= |LINE_PREFIX| + MAX_DIGITS + |LINE_SUFFIX|
    ensures line[..|LINE_PREFIX|] == LINE_PREFIX
    ensures line[|line| - |LINE_SUFFIX|..] == LINE_SUFFIX
    ensures AllDigits(line[|LINE_PREFIX|..|line| - |LINE_SUFFIX|])
    ensures ParseDecimal(line[|LINE_PREFIX|..|line| - |LINE_SUFFIX|]) == distance
    ensures line[|LINE_PREFIX|] == '0' ==> line == LINE_PREFIX + "0" + LINE_SUFFIX
  {
    var text := DecimalString(distance);
    DecimalStringFits(distance);
    ParseDecimalString(distance);
    var line := LINE_PREFIX + text + LINE_SUFFIX;
    assert line[|LINE_PREFIX|..|line| - |LINE_SUFFIX|] == text;
    line
  }

  /** main.c:108-121 for a width returned by `pulseIn`. The line has the same shape for a
      valid reading and for the sentinel 0. */
  function ReportFor(width: U16): (r: Report)
    ensures r.distance == 0 || DIST_MIN <= r.distance <= DIST_MAX
    ensures r.led <==> r.distance != 0
    ensures r.led <==> 116 <= width <= 23257
    ensures r.distance != 0 ==> r.distance * TICKS_PER_CM <= width < (r.distance + 1) * TICKS_PER_CM
    ensures r.line == ReportLine(r.distance)
  {
    var d := DistanceCm(width);
    ValidWidthWindow(width);
    Report(d, d != 0, ReportLine(d))
  }

  /** Everything one loop iteration produces. */
  datatype CycleOutput = CycleOutput(trigger: seq<TriggerEvent>, pulse: Pulse, report: Report)

  /** One iteration of the measurement loop as main.c runs it, for a given echo trace
      and the two values TA0R shows when it is read. */
  function MeasurementCycle(echo: seq<bool>, startTick: U16, stopTick: U16): (c: CycleOutput)
    ensures c.report.led ==> c.pulse.exit == Timed
    ensures c.pulse.polls <= 2 * (TIMEOUT + 1)
  {
    var pulse := Capture(echo, startTick, stopTick);
    TimedWidth(echo, startTick, stopTick);
    CycleOutput(TriggerPulse(), pulse, ReportFor(pulse.width))
  }

  /** One iteration of the loop with the pre-decrement guards of `CaptureCorrected`. */
  function MeasurementCycleCorrected(echo: seq<bool>, startTick: U16, stopTick: U16): (c: CycleOutput)
    ensures c.report.led ==> c.pulse.exit == Timed
    ensures c.pulse.polls <= 2 * TIMEOUT
  {
    var pulse := CaptureCorrected(echo, startTick, stopTick);
    CycleOutput(TriggerPulse(), pulse, ReportFor(pulse.width))
  }

  /** The loop body in the order of main.c, with the imperative `delay_us`, `pulseIn` and
      `int_to_str`; `buffer` is the uninitialised `char buffer[20]`, and the line is
      what the three `uart_puts` calls send. */
  method LoopBody(echo: seq<bool>, startTick: U16, stopTick: U16, buffer: string)
    returns (trigger: seq<TriggerEvent>, led: bool, sent: string, polls: nat)
    requires |buffer| == BUFFER_SIZE
    ensures trigger == MeasurementCycle(echo, startTick, stopTick).trigger
    ensures polls == MeasurementCycle(echo, startTick, stopTick).pulse.polls
    ensures led == MeasurementCycle(echo, startTick, stopTick).report.led
    ensures sent == MeasurementCycle(echo, startTick, stopTick).report.line
  {
    // Trigger pulse
    trigger := EmitTrigger();

    // Measure pulse
    var pulseWidth;
    pulseWidth, polls := PulseIn(echo, startTick, stopTick);
    var distanceCm: U16 := pulseWidth / TICKS_PER_CM;

    // Filter invalid readings
    if distanceCm < DIST_MIN || distanceCm > DIST_MAX {
      distanceCm := 0;
    }

    // LED indication
    led := distanceCm != 0;

    // UART print
    DecimalStringFits(distanceCm);
    var str := IntToStr(distanceCm, buffer);
    SentDigits(distanceCm, str);
    sent := LINE_PREFIX + UntilNul(str) + LINE_SUFFIX;
  }
}
