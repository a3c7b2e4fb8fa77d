/**
 * The timing of the repeat loop in Main: each pass records the instant it is
 * due to be followed (its start plus the delay), and after the pass the loop
 * waits for whatever remains of that interval, so that a slow pass does not
 * push every later pass back. The clock and the pass durations are inputs.
 */
module Schedule {
  import opened Wrappers
  import opened Numerics

  /** The seconds left until the next pass is due: the unchecked Int32 cast of timestamp - now. */
  function SleepTime(passStart: int, delay: int, now: int): (s: int)
    ensures INT32_MIN <= s <= INT32_MAX
    ensures INT32_MIN <= passStart + delay - now <= INT32_MAX ==> s == passStart + delay - now
  {
    WrapInt32(passStart + delay - now)
  }

  /** The argument the source gives Thread.Sleep: seconds times 1000 as an unchecked Int32 product. */
  function SleepMillisAsWritten(sleepTime: int): (ms: int)
    ensures INT32_MIN <= ms <= INT32_MAX
    ensures INT32_MIN <= sleepTime * 1000 <= INT32_MAX ==> ms == sleepTime * 1000
  {
    WrapInt32(sleepTime * 1000)
  }

  /** The wait the loop evidently intends: sleepTime whole seconds, in milliseconds, without overflow. */
  function SleepMillis(sleepTime: int): (ms: int)
    ensures sleepTime > 0 ==> ms > 0
    ensures ms % 1000 == 0 && ms / 1000 == sleepTime
  {
    sleepTime * 1000
  }

  /**
   * A wait of 2147484 seconds (under 25 days, well inside a delay of "720h")
   * overflows: the source hands Thread.Sleep a negative number, the corrected
   * wait stays positive.
   */
  lemma SleepMillisOverflows()
    ensures SleepMillisAsWritten(2147484) == -2147483296 < 0
    ensures SleepMillis(2147484) == 2147484000
  {
  }

  /** Below that bound the two agree. */
  lemma SleepMillisAgree(sleepTime: int)
    requires 0 < sleepTime <= 2147483
    ensures SleepMillisAsWritten(sleepTime) == SleepMillis(sleepTime)
  {
  }

  /**
   * When the next pass starts, for a pass that began at passStart and lasted
   * duration seconds, as the source computes it: a positive wait reaches
   * Thread.Sleep through the wrapped product, and a negative argument makes it
   * throw, which ends the program (None). A wrapped positive argument sleeps
   * that many milliseconds, counted here in whole seconds.
   */
  function NextStart(passStart: int, delay: int, duration: nat): Option<int> {
    var now := passStart + duration;
    var s := SleepTime(passStart, delay, now);
    if s <= 0 then Some(now)
    else
      var ms := SleepMillisAsWritten(s);
      if ms < 0 then None else Some(now + ms / 1000)
  }

  /** The next start with the corrected wait. */
  function NextStartCorrected(passStart: int, delay: int, duration: nat): int {
    var now := passStart + duration;
    var s := SleepTime(passStart, delay, now);
    if s > 0 then now + SleepMillis(s) / 1000 else now
  }

  /** For waits up to 2147483 seconds the source's next start is the corrected one. */
  lemma NextStartAsCorrected(passStart: int, delay: int, duration: nat)
    requires SleepTime(passStart, delay, passStart + duration) <= 2147483
    ensures NextStart(passStart, delay, duration) == Some(NextStartCorrected(passStart, delay, duration))
  {
    var s := SleepTime(passStart, delay, passStart + duration);
    if s > 0 {
      SleepMillisAgree(s);
    }
  }

  /**
   * With a delay of 4320000 seconds (1200 hours) and an instant pass, the
   * source sleeps 25032 seconds instead of the whole delay; with a delay of
   * 2147484 seconds it throws instead of sleeping.
   */
  lemma NextStartWraps()
    ensures NextStart(0, 4320000, 0) == Some(25032) && NextStartCorrected(0, 4320000, 0) == 4320000
    ensures NextStart(0, 2147484, 0) == None && NextStartCorrected(0, 2147484, 0) == 2147484
  {
  }

  /** A pass is never followed before it has finished. */
  lemma NextStartNeverEarly(passStart: int, delay: int, duration: nat)
    ensures NextStart(passStart, delay, duration).Some? ==> NextStart(passStart, delay, duration).value >= passStart + duration
    ensures NextStartCorrected(passStart, delay, duration) >= passStart + duration
  {
  }

  /**
   * When the time left is at most 2147483 seconds, the next pass starts when
   * it is due, or as soon as the current one ends if that is later.
   */
  lemma NextStartOnTime(passStart: int, delay: int, duration: nat)
    requires INT32_MIN <= delay - duration <= 2147483
    ensures NextStart(passStart, delay, duration) ==
      Some(if duration <= delay then passStart + delay else passStart + duration)
  {
    NextStartAsCorrected(passStart, delay, duration);
  }

  /** With the corrected wait the same holds for every time left that fits an Int32. */
  lemma NextStartCorrectedOnTime(passStart: int, delay: int, duration: nat)
    requires INT32_MIN <= delay - duration <= INT32_MAX
    ensures NextStartCorrected(passStart, delay, duration) ==
      if duration <= delay then passStart + delay else passStart + duration
  {
  }

  /** Pass starts that follow each other as the loop schedules them. */
  predicate Scheduled(starts: seq<int>, delay: int, durations: seq<nat>)
    requires |starts| <= |durations|
  {
    forall k :: 0 <= k < |starts| - 1 ==> NextStart(starts[k], delay, durations[k]) == Some(starts[k + 1])
  }

  /**
   * The repeat loop of Main over the given pass durations: one pass when
   * repeat is off; otherwise one pass per duration (the real loop only ends
   * with the process), unless a wait makes Thread.Sleep throw (`stopped`).
   */
  method Passes(start: int, delay: int, repeat: bool, durations: seq<nat>) returns (starts: seq<int>, stopped: bool)
    requires durations != []
    ensures 1 <= |starts| <= |durations| && starts[0] == start && Scheduled(starts, delay, durations)
    ensures !repeat ==> starts == [start] && !stopped
    ensures repeat && !stopped ==> |starts| == |durations|
    ensures stopped ==>
      && repeat && |starts| < |durations|
      && NextStart(starts[|starts| - 1], delay, durations[|starts| - 1]).None?
  {
    var clock := start;
    starts := [];
    stopped := false;
    var k := 0;
    while true
      invariant 0 <= k < |durations| && |starts| == k
      invariant !repeat ==> k == 0
      invariant k == 0 ==> clock == start
      invariant k > 0 ==> starts[0] == start && NextStart(starts[k - 1], delay, durations[k - 1]) == Some(clock)
      invariant Scheduled(starts, delay, durations)
      decreases |durations| - k
    {
      var timestamp := clock + delay;
      starts := starts + [clock];
      ghost var passStart := clock;
      clock := clock + durations[k];
      if !repeat || k == |durations| - 1 {
        break;
      }
      var sleepTime := WrapInt32(timestamp - clock);
      if sleepTime > 0 {
        var ms := SleepMillisAsWritten(sleepTime);
        if ms < 0 {
          stopped := true;
          break;
        }
        clock := clock + ms / 1000;
      }
      assert NextStart(passStart, delay, durations[k]) == Some(clock);
      k := k + 1;
    }
  }

  /**
   * No drift: when the delay is at most 2147483 seconds and every pass fits in
   * it, pass k starts exactly k delays after the first, however long each pass
   * took.
   */
  lemma {:induction false} DriftFree(starts: seq<int>, delay: int, durations: seq<nat>, k: nat)
    requires |starts| <= |durations| && Scheduled(starts, delay, durations)
    requires 0 <= delay <= 2147483
    requires forall j :: 0 <= j < |durations| ==> durations[j] <= delay
    requires k < |starts|
    ensures starts[k] == starts[0] + k * delay
  {
    if k > 0 {
      DriftFree(starts, delay, durations, k - 1);
      NextStartOnTime(starts[k - 1], delay, durations[k - 1]);
    }
  }

  /** Within that bound the loop never stops on a wait: it runs one pass per duration. */
  lemma {:induction false} NeverStops(starts: seq<int>, delay: int, durations: seq<nat>)
    requires 1 <= |starts| < |durations|
    requires 0 <= delay <= 2147483
    requires forall j :: 0 <= j < |durations| ==> durations[j] <= delay
    ensures NextStart(starts[|starts| - 1], delay, durations[|starts| - 1]).Some?
  {
    NextStartOnTime(starts[|starts| - 1], delay, durations[|starts| - 1]);
  }
}
