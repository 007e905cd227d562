/** Worked measurement cycles, and the behaviour of the two guard checks of `pulseIn`
    when the echo never arrives or never ends, as written and with the guards
    pre-decremented. */
module Scenarios {
  import opened Uint16
  import opened PulseCapture
  import opened Distance
  import opened Decimal
  import opened Cycle

  /** The echo rises on poll 1 and falls on poll 3. */
  const SHORT_ECHO: seq<bool> := [false, true, true, false]

  /** The echo line is high from the first poll until after the falling wait has run
      out of guard. */
  const STUCK_ECHO: seq<bool> := seq(TIMEOUT + 2, _ => true)

  /** The report for a width that converts to the in-range distance `d`, rendered as `text`. */
  lemma ReportOfDistance(width: U16, d: U16, text: string)
    requires DIST_MIN <= d <= DIST_MAX && width / TICKS_PER_CM == d
    requires DecimalString(d) == text
    ensures ReportFor(width) == Report(d, true, LINE_PREFIX + text + LINE_SUFFIX)
  {
  }

  /** The report for a width the filter rejects. */
  lemma SentinelReport(width: U16)
    requires DistanceCm(width) == 0
    ensures ReportFor(width) == Report(0, false, "Distance: 0 cm\r\n")
  {
    assert LINE_PREFIX + "0" + LINE_SUFFIX == "Distance: 0 cm\r\n";
  }

  lemma RenderTen()
    ensures Digits(10) == "10"
  {
    assert Digits(1) == "1";
  }

  lemma RenderHundredFour()
    ensures DecimalString(104) == "104"
  {
    RenderTen();
    assert Digits(104) == Digits(10) + "4";
  }

  lemma RenderHundred()
    ensures DecimalString(100) == "100"
  {
    RenderTen();
    assert Digits(100) == Digits(10) + "0";
  }

  lemma RenderEight()
    ensures DecimalString(8) == "8"
  {
    assert Digits(8) == Digits(0) + [DigitChar(8)];
  }

  /** The line sent for 8 cm. */
  lemma LineEight()
    ensures ReportLine(8) == "Distance: 8 cm\r\n"
  {
    RenderEight();
  }

  lemma ReportEight()
    ensures ReportFor(500) == Report(8, true, "Distance: 8 cm\r\n")
  {
    assert DistanceCm(500) == 8;
    LineEight();
  }

  lemma ReportHundredFour()
    ensures ReportFor(6036) == Report(104, true, "Distance: 104 cm\r\n")
  {
    RenderHundredFour();
    assert 6036 / TICKS_PER_CM == 104;
    ReportOfDistance(6036, 104, "104");
    assert LINE_PREFIX + "104" + LINE_SUFFIX == "Distance: 104 cm\r\n";
  }

  lemma ReportHundred()
    ensures ReportFor(5800) == Report(100, true, "Distance: 100 cm\r\n")
  {
    RenderHundred();
    assert 5800 / TICKS_PER_CM == 100;
    ReportOfDistance(5800, 100, "100");
    assert LINE_PREFIX + "100" + LINE_SUFFIX == "Distance: 100 cm\r\n";
  }

  /** The short echo is bounded on polls 1 and 3, so the timer readings decide the width. */
  lemma ShortEchoPolls(startTick: U16, stopTick: U16)
    ensures Capture(SHORT_ECHO, startTick, stopTick) == Pulse(Elapsed(startTick, stopTick), 4, Timed)
  {
    assert !Sample(SHORT_ECHO, 0) && Sample(SHORT_ECHO, 1) && Sample(SHORT_ECHO, 2) && !Sample(SHORT_ECHO, 3);
    assert FirstEdge(SHORT_ECHO, 0, 1, false) && FirstEdge(SHORT_ECHO, 2, 1, true);
    WaitPostEdge(SHORT_ECHO, 0, false, TIMEOUT, 1);
    WaitPostEdge(SHORT_ECHO, 2, true, TIMEOUT, 1);
  }

  /** Timer read at 1000 and 1500: 500 ticks, 8 cm, LED on. */
  lemma ScenarioNoWrap()
    ensures MeasurementCycle(SHORT_ECHO, 1000, 1500).pulse.width == 500
    ensures MeasurementCycle(SHORT_ECHO, 1000, 1500).report == Report(8, true, "Distance: 8 cm\r\n")
  {
    ShortEchoPolls(1000, 1500);
    ElapsedCases(1000, 1500);
    ReportEight();
  }

  /** Timer read at 60000 and, after wrapping, 500: 6036 ticks, 104 cm, LED on. */
  lemma ScenarioWrap()
    ensures MeasurementCycle(SHORT_ECHO, 60000, 500).pulse.width == 6036
    ensures MeasurementCycle(SHORT_ECHO, 60000, 500).report == Report(104, true, "Distance: 104 cm\r\n")
  {
    ShortEchoPolls(60000, 500);
    ElapsedCases(60000, 500);
    ReportHundredFour();
  }

  /** A 100-tick echo is 1 cm, below the minimum: reported as 0 with the LED off. */
  lemma ScenarioTooClose()
    ensures MeasurementCycle(SHORT_ECHO, 0, 100).report == Report(0, false, "Distance: 0 cm\r\n")
  {
    ShortEchoPolls(0, 100);
    ElapsedCases(0, 100);
    assert DistanceCm(100) == 0;
    SentinelReport(100);
  }

  /** As written, an echo that never rises does not give the sentinel 0 from `pulseIn`:
      the exhausted rising guard wraps to 0xFFFF, the falling wait stops on its first
      poll, and the few ticks between the two timer reads (here 1000 and 1003) come back
      as the width. The conversion to centimetres hides it on the serial line. */
  lemma SilentEchoReturnsTimerDifference()
    ensures MeasurementCycle([], 1000, 1003).pulse == Pulse(3, TIMEOUT + 2, Timed)
    ensures MeasurementCycle([], 1000, 1003).report == Report(0, false, "Distance: 0 cm\r\n")
  {
    NeverRisingEchoIsMeasured([], 1000, 1003);
    ElapsedCases(1000, 1003);
    assert DistanceCm(3) == 0;
    SentinelReport(3);
  }

  /** As written, an echo stuck high reaches the timer arithmetic. Between the two reads
      the falling wait makes its full 30001 iterations, so on the device the width is
      that loop's cycle count modulo 2^16, a number fixed by the build; the model leaves
      the two reads free. When the width lands in [116, 23257] the loop reports a
      distance and lights the LED. Reads 0 and 5800 are one such instance: the line says
      100 cm. */
  lemma StuckEchoReportsDistance()
    ensures MeasurementCycle(STUCK_ECHO, 0, 5800).report == Report(100, true, "Distance: 100 cm\r\n")
  {
    StuckHighEchoIsMeasured(STUCK_ECHO, 0, 5800);
    ElapsedCases(0, 5800);
    ReportHundred();
  }

  /** With pre-decremented guards, an echo that does not rise within `TIMEOUT` polls is
      reported as the sentinel 0 with the LED off, whatever the timer shows. */
  lemma CorrectedSilentEchoIsSentinel(echo: seq<bool>, startTick: U16, stopTick: U16)
    requires Steady(echo, 0, TIMEOUT, false)
    ensures MeasurementCycleCorrected(echo, startTick, stopTick).pulse.width == 0
    ensures MeasurementCycleCorrected(echo, startTick, stopTick).report == Report(0, false, "Distance: 0 cm\r\n")
  {
    CorrectedRiseTimeout(echo, startTick, stopTick);
    SentinelReport(0);
  }

  /** With pre-decremented guards, an echo that stays high for `TIMEOUT` polls after
      rising is reported as the sentinel 0 with the LED off, whatever the timer shows. */
  lemma CorrectedStuckEchoIsSentinel(echo: seq<bool>, startTick: U16, stopTick: U16, r: nat)
    requires r < TIMEOUT
    requires FirstEdge(echo, 0, r, false) && Steady(echo, r + 1, TIMEOUT, true)
    ensures MeasurementCycleCorrected(echo, startTick, stopTick).report == Report(0, false, "Distance: 0 cm\r\n")
  {
    CorrectedFallTimeout(echo, startTick, stopTick, r);
    assert CaptureCorrected(echo, startTick, stopTick).width == 0;
    SentinelReport(0);
  }

  /** With pre-decremented guards the LED only comes on after a rising edge within
      `TIMEOUT` polls and a falling edge within `TIMEOUT` polls after it. */
  lemma CorrectedLedNeedsEcho(echo: seq<bool>, startTick: U16, stopTick: U16)
    ensures MeasurementCycleCorrected(echo, startTick, stopTick).report.led ==>
              exists r :: 0 <= r < TIMEOUT && Sample(echo, r) &&
                exists f :: r < f <= r + TIMEOUT && !Sample(echo, f)
  {
    CorrectedWidthNeedsBothEdges(echo, startTick, stopTick);
  }
}
