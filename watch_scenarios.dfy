/** The usage scenarios of the package's tests and example, as client code
    of the model. In each, `realAtStart` is the host clock when the watch is
    created and the `Now` hook is that clock shifted back by a fixed offset
    for the creation only; every later reading comes from the host clock,
    which has advanced by less than the precision the scenario checks. */
module StopwatchScenarios {
  import opened GoTime
  import opened Stopwatch

  /** A watch started at `a` and stopped at `b` measures `b - a`, and every
      unit accessor is that duration divided by its unit, truncated toward zero. */
  method StartThenStop(a: Instant, b: Instant)
    returns (d: Duration, ms: int, s: int, m: int, h: int, days: int)
    ensures d == b - a
    ensures ms == TruncDiv(b - a, Millisecond) && s == TruncDiv(b - a, Second)
    ensures m == TruncDiv(b - a, Minute) && h == TruncDiv(b - a, Hour)
    ensures days == TruncDiv(h, 24) && days == TruncDiv(b - a, Day)
  {
    var w := new Watch.StartAt(a);
    var _ := w.Stop(b);
    d := w.Duration();
    ms, s, m, h, days := w.Milliseconds(), w.Seconds(), w.Minutes(), w.Hours(), w.Days();
  }

  /** Stopping twice: the duration reflects the later `Stop` only. */
  method StopTwice(a: Instant, first: Instant, second: Instant) returns (d: Duration)
    ensures d == second - a
  {
    var w := new Watch.StartAt(a);
    var _ := w.Stop(first);
    var _ := w.Stop(second);
    d := w.Duration();
  }

  /** Restarting moves the start and keeps an earlier stop instant. */
  method Restart(a: Instant, b: Instant, c: Instant) returns (d: Duration)
    ensures d == b - c
  {
    var w := new Watch.StartAt(a);
    var _ := w.Stop(b);
    var _ := w.Start(c);
    d := w.Duration();
  }

  /** However long an unstopped watch has run, it renders as the placeholder. */
  method NeverStopped(a: Instant) returns (text: Text)
    ensures text == Literal(Placeholder)
  {
    var w := new Watch.StartAt(a);
    text := w.String();
  }

  /** Started 30 ms back and stopped within the next millisecond: the watch
      renders its duration, which is 30 whole milliseconds. */
  method StringAfterThirtyMilliseconds(realAtStart: Instant, realAtStop: Instant)
    returns (text: Text, ms: int)
    requires 0 <= realAtStop - realAtStart < Millisecond
    requires !IsZero(realAtStop)
    ensures text == DurationText(realAtStop - realAtStart + 30 * Millisecond)
    ensures ms == 30
  {
    var w := new Watch.StartAt(realAtStart - 30 * Millisecond);
    var _ := w.Stop(realAtStop);
    text := w.String();
    ms := w.Milliseconds();
  }

  /** Started 30 minutes back and timed at scope exit within the next second:
      the callback is handed the stopped watch once, already stopped at the
      exit reading, and it reads 30 minutes. */
  method DeferredTimer(realAtStart: Instant, realAtExit: Instant)
    returns (calls: nat, elapsed: Duration, minutes: int, seconds: int)
    requires 0 <= realAtExit - realAtStart < Second
    ensures calls == 1
    ensures elapsed == realAtExit - realAtStart + 30 * Minute
    ensures minutes == 30 && seconds == 30 * 60
  {
    var w := new Watch.StartAt(realAtStart - 30 * Minute);
    var handed, seen := w.Timer(realAtExit);
    calls := |handed|;
    elapsed := seen[0].1 - seen[0].0;
    minutes := handed[0].Minutes();
    seconds := handed[0].Seconds();
  }

  /** Started 30 ms back: the current duration reads 30 milliseconds, and
      reading it does not need the watch to be stopped. */
  method CurrentMilliseconds(realAtStart: Instant, realAtRead: Instant) returns (ms: int)
    requires 0 <= realAtRead - realAtStart < Millisecond
    ensures ms == 30
  {
    var w := new Watch.StartAt(realAtStart - 30 * Millisecond);
    ms := w.CurrentDurationMillisecond(realAtRead);
  }

  /** Started 35 s back: the current duration reads 35 seconds. */
  method CurrentSeconds(realAtStart: Instant, realAtRead: Instant) returns (s: int)
    requires 0 <= realAtRead - realAtStart < Second
    ensures s == 35
  {
    var w := new Watch.StartAt(realAtStart - 35 * Second);
    s := w.CurrentDurationSecond(realAtRead);
  }

  /** Reading before stopping or stopping before starting gives a negative
      duration, and the accessors truncate it toward zero: one and a half
      seconds backwards is -1 second, not -2. */
  method StoppedBeforeStart(a: Instant) returns (s: int, ms: int)
    ensures s == -1 && ms == -1500
  {
    var w := new Watch.StartAt(a);
    var _ := w.Stop(a - 1500 * Millisecond);
    s := w.Seconds();
    ms := w.Milliseconds();
  }
}
