/** The echo capture of `pulseIn` (main.c:42-61): two polling loops with a 16-bit
    countdown guard bound the echo pulse, the free-running timer is read at each edge,
    and the elapsed ticks are corrected for the timer wrapping past 0xFFFF.

    The echo line is a recorded trace with one level per poll; the timer register TA0R
    is represented by the two values it shows when it is read. */
module PulseCapture {
  import opened Uint16

  /** Guard value each wait loop starts from (`TIMEOUT`). */
  const TIMEOUT: U16 := 30000

  /** The echo level seen by poll number `i`; once the recorded trace is over the
      line reads low, as an idle sensor holds it. */
  function Sample(echo: seq<bool>, i: nat): bool
  {
    if i < |echo| then echo[i] else false
  }

  /** The `count` polls starting at poll `from` all see the echo at `level`. */
  predicate Steady(echo: seq<bool>, from: nat, count: nat, level: bool)
  {
    forall i :: from <= i < from + count ==> Sample(echo, i) == level
  }

  /** Counting from poll `from`, the first poll that does not see `level` is number `k`. */
  predicate FirstEdge(echo: seq<bool>, from: nat, k: nat, level: bool)
  {
    Steady(echo, from, k, level) && Sample(echo, from + k) != level
  }

  /** How a wait loop ended: how many times it read the echo line and the guard it left. */
  datatype WaitExit = WaitExit(polls: nat, timeout: U16)

  /** `while (<echo reads level> && timeout--) ;` started at poll `pos`, as written in
      main.c: the guard is post-decremented, so the poll that finds it at 0 ends the loop
      and leaves 0xFFFF behind. The result is the first poll that sees the other level
      if there is one among the first `timeout + 1` polls. */
  function WaitPost(echo: seq<bool>, pos: nat, level: bool, timeout: U16): (w: WaitExit)
    ensures 1 <= w.polls <= timeout + 1
    decreases timeout
  {
    if Sample(echo, pos) != level then WaitExit(1, timeout)
    else if timeout == 0 then WaitExit(1, Dec(timeout))
    else
      var w := WaitPost(echo, pos + 1, level, Dec(timeout));
      WaitExit(w.polls + 1, w.timeout)
  }

  /** `while (<echo reads level> && --timeout) ;`: the pre-decrement form, which stops
      with the guard at 0 exactly when `timeout` polls saw no edge. */
  function WaitPre(echo: seq<bool>, pos: nat, level: bool, timeout: U16): (w: WaitExit)
    requires timeout >= 1
    ensures 1 <= w.polls <= timeout
    decreases timeout
  {
    if Sample(echo, pos) != level then WaitExit(1, timeout)
    else if Dec(timeout) == 0 then WaitExit(1, 0)
    else
      var w := WaitPre(echo, pos + 1, level, Dec(timeout));
      WaitExit(w.polls + 1, w.timeout)
  }

  /** The elapsed-tick formula of main.c:59-60 evaluated in 16-bit arithmetic. */
  function Elapsed(start: U16, stop: U16): (d: U16)
    ensures d == (stop - start) % MODULUS
    ensures stop < start ==> 1 <= d
  {
    if stop >= start then Sub(stop, start)
    else Add(Add(Sub(MAX, start), stop), 1)
  }

  /** Which return statement of `pulseIn` produced the result. */
  datatype PulseExit = RiseGuardZero | FallGuardZero | Timed

  /** What one call of `pulseIn` returns (`width`), how many times it read the echo
      line, and which return produced the value. */
  datatype Pulse = Pulse(width: U16, polls: nat, exit: PulseExit)

  /** `pulseIn` as written: a guard left at 0 by either loop returns 0, anything else
      goes on to the timer arithmetic. */
  function Capture(echo: seq<bool>, startTick: U16, stopTick: U16): (p: Pulse)
    ensures p.polls <= 2 * (TIMEOUT + 1)
  {
    var rise := WaitPost(echo, 0, false, TIMEOUT);
    if rise.timeout == 0 then Pulse(0, rise.polls, RiseGuardZero)
    else
      var fall := WaitPost(echo, rise.polls, true, TIMEOUT);
      if fall.timeout == 0 then Pulse(0, rise.polls + fall.polls, FallGuardZero)
      else Pulse(Elapsed(startTick, stopTick), rise.polls + fall.polls, Timed)
  }

  /** `pulseIn` with both guards pre-decremented, so that the two `timeout == 0` checks
      report what they are meant to: no edge within `TIMEOUT` polls. */
  function CaptureCorrected(echo: seq<bool>, startTick: U16, stopTick: U16): (p: Pulse)
    ensures p.polls <= 2 * TIMEOUT
    ensures p.width != 0 ==> p.exit == Timed
  {
    var rise := WaitPre(echo, 0, false, TIMEOUT);
    if rise.timeout == 0 then Pulse(0, rise.polls, RiseGuardZero)
    else
      var fall := WaitPre(echo, rise.polls, true, TIMEOUT);
      if fall.timeout == 0 then Pulse(0, rise.polls + fall.polls, FallGuardZero)
      else Pulse(Elapsed(startTick, stopTick), rise.polls + fall.polls, Timed)
  }

  /** One polling loop of `pulseIn` step by step: the echo test first, then the
      post-decrement of the guard, in the order of the C condition. Returns the poll
      count after the loop and the guard it leaves. */
  method WaitLoop(echo: seq<bool>, pos: nat, level: bool) returns (next: nat, timeout: U16)
    ensures next == pos + WaitPost(echo, pos, level, TIMEOUT).polls
    ensures timeout == WaitPost(echo, pos, level, TIMEOUT).timeout
  {
    ghost var w := WaitPost(echo, pos, level, TIMEOUT);
    timeout := TIMEOUT;
    next := pos;
    while true
      invariant next + WaitPost(echo, next, level, timeout).polls == pos + w.polls
      invariant WaitPost(echo, next, level, timeout).timeout == w.timeout
      decreases timeout
    {
      WaitPostStep(echo, next, level, timeout);
      var seen := Sample(echo, next);
      next := next + 1;
      if seen != level {
        break;
      }
      var guard := timeout;
      timeout := Dec(timeout);
      if guard == 0 {
        break;
      }
    }
  }

  /** One iteration of the post-decrement loop: an edge ends it with the guard
      untouched, a guard at 0 ends it at 0xFFFF, otherwise the rest of the loop starts
      one poll later with the guard one lower. */
  lemma WaitPostStep(echo: seq<bool>, pos: nat, level: bool, timeout: U16)
    ensures Sample(echo, pos) != level ==> WaitPost(echo, pos, level, timeout) == WaitExit(1, timeout)
    ensures Sample(echo, pos) == level && timeout == 0 ==> WaitPost(echo, pos, level, timeout) == WaitExit(1, MAX)
    ensures Sample(echo, pos) == level && timeout > 0 ==>
              WaitPost(echo, pos, level, timeout).polls == WaitPost(echo, pos + 1, level, timeout - 1).polls + 1 &&
              WaitPost(echo, pos, level, timeout).timeout == WaitPost(echo, pos + 1, level, timeout - 1).timeout
  {
  }

  /** `pulseIn` in the order of main.c: wait for the rising edge, check the guard, read
      the timer, wait for the falling edge, read the timer, check the guard, then apply
      the overflow correction. */
  method PulseIn(echo: seq<bool>, startTick: U16, stopTick: U16) returns (width: U16, polls: nat)
    ensures width == Capture(echo, startTick, stopTick).width
    ensures polls == Capture(echo, startTick, stopTick).polls
  {
    var timeout: U16;
    // Wait for HIGH
    polls, timeout := WaitLoop(echo, 0, false);
    if timeout == 0 {
      assert Capture(echo, startTick, stopTick).exit == RiseGuardZero;
      return 0, polls;
    }
    var start := startTick;

    // Wait for LOW
    polls, timeout := WaitLoop(echo, polls, true);
    var stop := stopTick;
    if timeout == 0 {
      assert Capture(echo, startTick, stopTick).exit == FallGuardZero;
      return 0, polls;
    }
    assert Capture(echo, startTick, stopTick).exit == Timed;

    // Handle timer overflow
    if stop >= start {
      width := Sub(stop, start);
    } else {
      width := Add(Add(Sub(MAX, start), stop), 1);
    }
  }

  /** Adding the elapsed ticks to the start reading gives the stop reading back. */
  lemma ElapsedInverse(start: U16, stop: U16)
    ensures Add(start, Elapsed(start, stop)) == stop
  {
  }

  /** Elapsed ticks equal the true difference when the timer did not wrap and
      65536 minus the start plus the stop when it did. */
  lemma ElapsedCases(start: U16, stop: U16)
    ensures stop >= start ==> Elapsed(start, stop) == stop - start
    ensures stop < start ==> Elapsed(start, stop) == MODULUS - start + stop
  {
  }

  /** What a post-decrement loop did: every poll but the last saw `level`; if the last
      saw the other level the guard went down once per earlier poll, otherwise the loop
      made `timeout + 1` polls and left the guard wrapped to 0xFFFF. */
  lemma {:induction false} WaitPostShape(echo: seq<bool>, pos: nat, level: bool, timeout: U16)
    ensures var w := WaitPost(echo, pos, level, timeout);
      && Steady(echo, pos, w.polls - 1, level)
      && (Sample(echo, pos + w.polls - 1) != level ==> w.timeout == timeout - (w.polls - 1))
      && (Sample(echo, pos + w.polls - 1) == level ==> w.polls == timeout + 1 && w.timeout == MAX)
    decreases timeout
  {
    if Sample(echo, pos) == level && timeout > 0 {
      WaitPostShape(echo, pos + 1, level, timeout - 1);
    }
  }

  /** What a pre-decrement loop did: every poll but the last saw `level`; if the last
      saw the other level the guard went down once per earlier poll, otherwise the loop
      made `timeout` polls and left the guard at 0. */
  lemma {:induction false} WaitPreShape(echo: seq<bool>, pos: nat, level: bool, timeout: U16)
    requires timeout >= 1
    ensures var w := WaitPre(echo, pos, level, timeout);
      && Steady(echo, pos, w.polls - 1, level)
      && (Sample(echo, pos + w.polls - 1) != level ==> w.timeout == timeout - (w.polls - 1))
      && (Sample(echo, pos + w.polls - 1) == level ==> w.polls == timeout && w.timeout == 0)
    decreases timeout
  {
    if Sample(echo, pos) == level && timeout > 1 {
      WaitPreShape(echo, pos + 1, level, timeout - 1);
    }
  }

  /** The post-decrement loop ends on the first poll that sees the other level when
      that poll comes within `timeout + 1` polls, leaving `timeout - k` as the guard. */
  lemma {:induction false} WaitPostEdge(echo: seq<bool>, pos: nat, level: bool, timeout: U16, k: nat)
    requires k <= timeout
    requires FirstEdge(echo, pos, k, level)
    ensures WaitPost(echo, pos, level, timeout) == WaitExit(k + 1, timeout - k)
    decreases k
  {
    if k > 0 {
      WaitPostEdge(echo, pos + 1, level, timeout - 1, k - 1);
    }
  }

  /** The post-decrement loop that sees no edge in `timeout + 1` polls stops there with
      its guard wrapped to 0xFFFF, not 0. */
  lemma {:induction false} WaitPostExhausted(echo: seq<bool>, pos: nat, level: bool, timeout: U16)
    requires Steady(echo, pos, timeout + 1, level)
    ensures WaitPost(echo, pos, level, timeout) == WaitExit(timeout + 1, MAX)
    decreases timeout
  {
    if timeout > 0 {
      WaitPostExhausted(echo, pos + 1, level, timeout - 1);
    }
  }

  /** The pre-decrement loop ends on the first poll that sees the other level when that
      poll comes within `timeout` polls, leaving `timeout - k` (never 0) as the guard. */
  lemma {:induction false} WaitPreEdge(echo: seq<bool>, pos: nat, level: bool, timeout: U16, k: nat)
    requires k < timeout
    requires FirstEdge(echo, pos, k, level)
    ensures WaitPre(echo, pos, level, timeout) == WaitExit(k + 1, timeout - k)
    decreases k
  {
    if k > 0 {
      WaitPreEdge(echo, pos + 1, level, timeout - 1, k - 1);
    }
  }

  /** The pre-decrement loop that sees no edge in `timeout` polls stops there with its
      guard at 0. */
  lemma {:induction false} WaitPreExhausted(echo: seq<bool>, pos: nat, level: bool, timeout: U16)
    requires timeout >= 1
    requires Steady(echo, pos, timeout, level)
    ensures WaitPre(echo, pos, level, timeout) == WaitExit(timeout, 0)
    decreases timeout
  {
    if timeout > 1 {
      WaitPreExhausted(echo, pos + 1, level, timeout - 1);
    }
  }

  /** A post-decrement loop leaves its guard at 0 exactly when the edge arrives on the
      poll right after the guard ran down: poll `timeout`, counted from 0. */
  lemma WaitPostGuardZero(echo: seq<bool>, pos: nat, level: bool, timeout: U16)
    ensures WaitPost(echo, pos, level, timeout).timeout == 0 <==>
              FirstEdge(echo, pos, timeout, level)
  {
    var w := WaitPost(echo, pos, level, timeout);
    WaitPostShape(echo, pos, level, timeout);
    if w.timeout == 0 {
      assert Sample(echo, pos + w.polls - 1) != level;
      assert w.polls == timeout + 1;
    } else if FirstEdge(echo, pos, timeout, level) {
      WaitPostEdge(echo, pos, level, timeout, timeout);
    }
  }

  /** The rising wait makes `r + 1` polls, the last of them poll `r`, and leaves a
      nonzero guard when `r` is the first high poll before the guard ran down, or when
      `r` is `TIMEOUT` and the guard ran out with the line low. */
  lemma RiseEndsAt(echo: seq<bool>, r: nat)
    requires (r < TIMEOUT && FirstEdge(echo, 0, r, false)) ||
             (r == TIMEOUT && Steady(echo, 0, TIMEOUT + 1, false))
    ensures WaitPost(echo, 0, false, TIMEOUT).polls == r + 1
    ensures WaitPost(echo, 0, false, TIMEOUT).timeout != 0
  {
    if r < TIMEOUT {
      WaitPostEdge(echo, 0, false, TIMEOUT, r);
    } else {
      WaitPostExhausted(echo, 0, false, TIMEOUT);
    }
  }

  /** The rising-edge check (main.c:47) returns 0 exactly when the echo is low on the
      first `TIMEOUT` polls and high on the next one: the guard only reads 0 after the
      loop when the edge arrives on the poll right after the guard ran down. */
  lemma RiseGuardZeroExactly(echo: seq<bool>, startTick: U16, stopTick: U16)
    ensures Capture(echo, startTick, stopTick).exit == RiseGuardZero <==>
              FirstEdge(echo, 0, TIMEOUT, false)
  {
    assert Capture(echo, startTick, stopTick).exit == RiseGuardZero <==>
      WaitPost(echo, 0, false, TIMEOUT).timeout == 0;
    WaitPostGuardZero(echo, 0, false, TIMEOUT);
  }

  /** The falling-edge check (main.c:56) returns 0 exactly when the echo stays high on
      the `TIMEOUT` polls after the one that ended the rising wait and is low on the
      next. `r` is that poll: the first high poll before the guard ran down, or poll
      `TIMEOUT` when the guard was exhausted without seeing the line go high. */
  lemma FallGuardZeroExactly(echo: seq<bool>, startTick: U16, stopTick: U16, r: nat)
    requires (r < TIMEOUT && FirstEdge(echo, 0, r, false)) ||
             (r == TIMEOUT && Steady(echo, 0, TIMEOUT + 1, false))
    ensures Capture(echo, startTick, stopTick).exit == FallGuardZero <==>
              FirstEdge(echo, r + 1, TIMEOUT, true)
  {
    RiseEndsAt(echo, r);
    assert Capture(echo, startTick, stopTick).exit == FallGuardZero <==>
      WaitPost(echo, r + 1, true, TIMEOUT).timeout == 0;
    WaitPostGuardZero(echo, r + 1, true, TIMEOUT);
  }

  /** A pulse that reached the timer arithmetic reports the wrap-corrected difference of
      the two timer readings. */
  lemma TimedWidth(echo: seq<bool>, startTick: U16, stopTick: U16)
    ensures Capture(echo, startTick, stopTick).exit == Timed ==>
              Capture(echo, startTick, stopTick).width == Elapsed(startTick, stopTick)
    ensures Capture(echo, startTick, stopTick).exit != Timed ==>
              Capture(echo, startTick, stopTick).width == 0
  {
  }

  /** As written, an echo that never rises takes neither `return 0`: the exhausted
      guard wraps to 0xFFFF, both checks pass and the two timer readings are turned into
      a width (0 only if the two readings are equal). */
  lemma NeverRisingEchoIsMeasured(echo: seq<bool>, startTick: U16, stopTick: U16)
    requires Steady(echo, 0, TIMEOUT + 2, false)
    ensures Capture(echo, startTick, stopTick) == Pulse(Elapsed(startTick, stopTick), TIMEOUT + 2, Timed)
  {
    WaitPostExhausted(echo, 0, false, TIMEOUT);
    WaitPostEdge(echo, TIMEOUT + 1, true, TIMEOUT, 0);
  }

  /** As written, an echo stuck high takes neither `return 0` either: the falling wait
      exhausts its guard, which wraps to 0xFFFF, and a width is computed from the two
      timer readings. */
  lemma StuckHighEchoIsMeasured(echo: seq<bool>, startTick: U16, stopTick: U16)
    requires Steady(echo, 0, TIMEOUT + 2, true)
    ensures Capture(echo, startTick, stopTick) == Pulse(Elapsed(startTick, stopTick), TIMEOUT + 2, Timed)
  {
    WaitPostEdge(echo, 0, false, TIMEOUT, 0);
    WaitPostExhausted(echo, 1, true, TIMEOUT);
  }

  /** A pre-decrement loop leaves its guard at 0 exactly when none of its `timeout`
      polls saw the other level. */
  lemma WaitPreGuardZero(echo: seq<bool>, pos: nat, level: bool, timeout: U16)
    requires timeout >= 1
    ensures WaitPre(echo, pos, level, timeout).timeout == 0 <==>
              Steady(echo, pos, timeout, level)
  {
    var w := WaitPre(echo, pos, level, timeout);
    WaitPreShape(echo, pos, level, timeout);
    if w.timeout == 0 {
      assert Sample(echo, pos + w.polls - 1) == level;
      assert w.polls == timeout;
      forall i | pos <= i < pos + timeout
        ensures Sample(echo, i) == level
      {
        if i < pos + w.polls - 1 {
        }
      }
    } else if Steady(echo, pos, timeout, level) {
      WaitPreExhausted(echo, pos, level, timeout);
    }
  }

  /** A pre-decrement loop that leaves its guard above 0 stopped on a poll that saw the
      other level, within its `timeout` polls. */
  lemma WaitPreEdgeSeen(echo: seq<bool>, pos: nat, level: bool, timeout: U16)
    requires timeout >= 1
    ensures WaitPre(echo, pos, level, timeout).timeout != 0 ==>
              Sample(echo, pos + WaitPre(echo, pos, level, timeout).polls - 1) != level
  {
    WaitPreShape(echo, pos, level, timeout);
  }

  /** With pre-decremented guards the rising check returns 0 exactly when none of the
      first `TIMEOUT` polls sees the echo high. */
  lemma CorrectedRiseTimeout(echo: seq<bool>, startTick: U16, stopTick: U16)
    ensures CaptureCorrected(echo, startTick, stopTick).exit == RiseGuardZero <==>
              Steady(echo, 0, TIMEOUT, false)
  {
    WaitPreGuardZero(echo, 0, false, TIMEOUT);
  }

  /** With pre-decremented guards the falling check returns 0 exactly when the echo,
      having first read high on poll `r`, stays high on the `TIMEOUT` polls after it. */
  lemma CorrectedFallTimeout(echo: seq<bool>, startTick: U16, stopTick: U16, r: nat)
    requires r < TIMEOUT
    requires FirstEdge(echo, 0, r, false)
    ensures CaptureCorrected(echo, startTick, stopTick).exit == FallGuardZero <==>
              Steady(echo, r + 1, TIMEOUT, true)
  {
    WaitPreEdge(echo, 0, false, TIMEOUT, r);
    WaitPreGuardZero(echo, r + 1, true, TIMEOUT);
  }

  /** With pre-decremented guards a nonzero width is only reported after a rising edge
      within `TIMEOUT` polls followed by a falling edge within `TIMEOUT` more polls. */
  lemma CorrectedWidthNeedsBothEdges(echo: seq<bool>, startTick: U16, stopTick: U16)
    ensures CaptureCorrected(echo, startTick, stopTick).exit == Timed ==>
              exists r :: 0 <= r < TIMEOUT && Sample(echo, r) &&
                exists f :: r < f <= r + TIMEOUT && !Sample(echo, f)
    ensures CaptureCorrected(echo, startTick, stopTick).exit == Timed ==>
              CaptureCorrected(echo, startTick, stopTick).width == Elapsed(startTick, stopTick)
  {
    var rise := WaitPre(echo, 0, false, TIMEOUT);
    WaitPreEdgeSeen(echo, 0, false, TIMEOUT);
    if rise.timeout != 0 {
      var fall := WaitPre(echo, rise.polls, true, TIMEOUT);
      WaitPreEdgeSeen(echo, rise.polls, true, TIMEOUT);
      if fall.timeout != 0 {
        var r := rise.polls - 1;
        var f := rise.polls + fall.polls - 1;
        assert 0 <= r < TIMEOUT && Sample(echo, r);
        assert r < f <= r + TIMEOUT && !Sample(echo, f);
      }
    }
  }
}
