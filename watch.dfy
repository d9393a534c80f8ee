/** The stopwatch: a start and a stop instant, two fluent mutators that
    overwrite one of them from a clock, a stop-then-callback helper, and the
    durations derived from the two instants or from the start and the real
    clock. The clock reading each operation would take is its parameter:
    `now` is what the swappable `Now` hook returns, `realNow` what the host's
    own clock returns. */
module Stopwatch {
  import opened GoTime

  /** What `String` renders: either a fixed text, or the standard library's
      rendering of a duration, which this model keeps symbolic. */
  datatype Text = Literal(s: string) | DurationText(d: Duration)

  /** The text shown while the watch has not been stopped. */
  const Placeholder: string := "0m0.00s"

  class Watch {
    var start: Instant
    var stop: Instant

    /** A watch started at `t` and not yet stopped. The package's own
        constructors are not part of this model; `StartAt(now)` also stands for
        the constructor that starts from the clock. */
    constructor StartAt(t: Instant)
      ensures start == t && IsZero(stop)
    {
      start := t;
      stop := ZeroInstant;
    }

    /** Records the clock reading as the stop instant; `start` is untouched. */
    method Stop(now: Instant) returns (w: Watch)
      modifies this
      ensures stop == now && start == old(start)
      ensures (start, stop) == Replay(old(start), old(stop), [StopCall(now)])
      ensures w == this
    {
      stop := now;
      w := this;
    }

    /** Records the clock reading as the start instant; `stop` is untouched. */
    method Start(now: Instant) returns (w: Watch)
      modifies this
      ensures start == now && stop == old(stop)
      ensures (start, stop) == Replay(old(start), old(stop), [StartCall(now)])
      ensures w == this
    {
      start := now;
      w := this;
    }

    /** Stops the watch and then hands it to a callback. The callback is code
        this model cannot see; `calls` lists the watches it is handed, in
        order, and `seen` the (`start`, `stop`) fields each had at the moment
        it was handed over. */
    method Timer(now: Instant) returns (calls: seq<Watch>, seen: seq<(Instant, Instant)>)
      modifies this
      ensures stop == now && start == old(start)
      ensures (start, stop) == Replay(old(start), old(stop), [StopCall(now)])
      ensures calls == [this]
      ensures seen == [(old(start), now)]
    {
      var w := Stop(now);
      calls, seen := [w], [(w.start, w.stop)];
    }

    /** The elapsed duration from `start` to `stop`; `duration` and
        `Duration` of the source are the same computation. */
    function Duration(): (d: Duration)
      reads this
      ensures start + d == stop
    {
      Sub(stop, start)
    }

    /** The elapsed time from `start` to the real clock; `stop` plays no part. */
    function CurrentDuration(realNow: Instant): (d: Duration)
      reads this`start
      ensures start + d == realNow
    {
      Sub(realNow, start)
    }

    function Milliseconds(): (r: int)
      reads this
      ensures IsTruncQuotient(Duration(), Millisecond, r)
    {
      TruncDiv(Duration(), Millisecond)
    }

    function Seconds(): (r: int)
      reads this
      ensures IsTruncQuotient(Duration(), Second, r)
    {
      TruncDiv(Duration(), Second)
    }

    function Minutes(): (r: int)
      reads this
      ensures IsTruncQuotient(Duration(), Minute, r)
    {
      TruncDiv(Duration(), Minute)
    }

    function Hours(): (r: int)
      reads this
      ensures IsTruncQuotient(Duration(), Hour, r)
    {
      TruncDiv(Duration(), Hour)
    }

    /** Whole hours divided by 24, truncating; the same as whole days of the
        elapsed duration. */
    function Days(): (r: int)
      reads this
      ensures IsTruncQuotient(Hours(), 24, r)
      ensures r == TruncDiv(Duration(), Day)
    {
      TruncDivNested(Duration(), Hour, 24);
      TruncDiv(Hours(), 24)
    }

    function CurrentDurationSecond(realNow: Instant): (r: int)
      reads this`start
      ensures IsTruncQuotient(realNow - start, Second, r)
    {
      TruncDiv(CurrentDuration(realNow), Second)
    }

    function CurrentDurationMillisecond(realNow: Instant): (r: int)
      reads this`start
      ensures IsTruncQuotient(realNow - start, Millisecond, r)
    {
      TruncDiv(CurrentDuration(realNow), Millisecond)
    }

    /** The placeholder while `stop` is unset, the rendering of the elapsed
        duration otherwise. */
    function String(): (r: Text)
      reads this
      ensures r == Literal(Placeholder) <==> IsZero(stop)
      ensures !IsZero(stop) ==> r == DurationText(Duration())
    {
      if IsZero(stop) then Literal(Placeholder) else DurationText(Duration())
    }
  }

  /** One call of a mutator and the clock reading it takes. */
  datatype Call = StartCall(now: Instant) | StopCall(now: Instant)

  /** The fields (`start`, `stop`) of a watch after the mutator calls `calls`,
      made in order on a watch whose fields were `start` and `stop`. */
  function Replay(start: Instant, stop: Instant, calls: seq<Call>): (Instant, Instant)
    decreases |calls|
  {
    if calls == [] then (start, stop)
    else match calls[0]
      case StartCall(t) => Replay(t, stop, calls[1..])
      case StopCall(t) => Replay(start, t, calls[1..])
  }

  /** The clock reading of the last `Start` in `calls`, or `otherwise` if there is none. */
  function LastStart(calls: seq<Call>, otherwise: Instant): Instant
    decreases |calls|
  {
    if calls == [] then otherwise
    else if calls[|calls| - 1].StartCall? then calls[|calls| - 1].now
    else LastStart(calls[..|calls| - 1], otherwise)
  }

  /** The clock reading of the last `Stop` in `calls`, or `otherwise` if there is none. */
  function LastStop(calls: seq<Call>, otherwise: Instant): Instant
    decreases |calls|
  {
    if calls == [] then otherwise
    else if calls[|calls| - 1].StopCall? then calls[|calls| - 1].now
    else LastStop(calls[..|calls| - 1], otherwise)
  }

  /** However often a watch is restarted and re-stopped, each call only
      overwrites its own field: `start` is the reading of the latest `Start`
      and `stop` that of the latest `Stop`, and an earlier call of either
      kind leaves no trace. */
  lemma {:induction false} ReplayKeepsLatest(start: Instant, stop: Instant, calls: seq<Call>)
    ensures Replay(start, stop, calls) == (LastStart(calls, start), LastStop(calls, stop))
    decreases |calls|
  {
    if calls != [] {
      var c, rest := calls[0], calls[1..];
      assert calls == [c] + rest;
      LatestAfterFirst(c, rest, start, stop);
      match c
      case StartCall(t) => ReplayKeepsLatest(t, stop, rest);
      case StopCall(t) => ReplayKeepsLatest(start, t, rest);
    }
  }

  /** Replaying one more call continues from where the earlier calls left
      the fields, so a history of calls is the one-call steps of `Start` and
      `Stop` made one after another. */
  lemma {:induction false} ReplayAppend(start: Instant, stop: Instant, calls: seq<Call>, c: Call)
    ensures Replay(start, stop, calls + [c])
         == (var p := Replay(start, stop, calls); Replay(p.0, p.1, [c]))
    decreases |calls|
  {
    if calls != [] {
      assert (calls + [c])[1..] == calls[1..] + [c];
      match calls[0]
      case StartCall(t) => ReplayAppend(t, stop, calls[1..], c);
      case StopCall(t) => ReplayAppend(start, t, calls[1..], c);
    }
  }

  /** What the first call contributes to the latest readings: it is the default
      for the calls after it, in its own field only. */
  lemma {:induction false} LatestAfterFirst(c: Call, rest: seq<Call>, start: Instant, stop: Instant)
    ensures LastStart([c] + rest, start) == LastStart(rest, if c.StartCall? then c.now else start)
    ensures LastStop([c] + rest, stop) == LastStop(rest, if c.StopCall? then c.now else stop)
    decreases |rest|
  {
    var calls := [c] + rest;
    if rest != [] {
      var n := |rest| - 1;
      assert calls[..|calls| - 1] == [c] + rest[..n];
      assert calls[|calls| - 1] == rest[n];
      LatestAfterFirst(c, rest[..n], start, stop);
    }
  }

  /** Swapping a watch's start and stop instants negates every unit reading:
      a duration running backwards is truncated toward zero like one running
      forwards, never rounded down to the next whole unit as flooring would. */
  lemma {:induction false} SwappedWatchNegates(w: Watch, v: Watch)
    requires v.start == w.stop && v.stop == w.start
    ensures v.Duration() == -w.Duration()
    ensures v.Milliseconds() == -w.Milliseconds()
    ensures v.Seconds() == -w.Seconds()
    ensures v.Minutes() == -w.Minutes()
    ensures v.Hours() == -w.Hours()
    ensures v.Days() == -w.Days()
  {
    var d := w.Duration();
    TruncDivOfNegated(d, Millisecond);
    TruncDivOfNegated(d, Second);
    TruncDivOfNegated(d, Minute);
    TruncDivOfNegated(d, Hour);
    TruncDivOfNegated(w.Hours(), 24);
  }

  /** An unstopped watch renders as the placeholder, wherever it was started. */
  lemma UnstoppedString(w: Watch)
    requires IsZero(w.stop)
    ensures w.String() == Literal(Placeholder)
  {
  }

  /** The current-duration accessors depend on `start` and the real clock only. */
  lemma CurrentDurationIgnoresStop(w: Watch, v: Watch, realNow: Instant)
    requires w.start == v.start
    ensures w.CurrentDurationSecond(realNow) == v.CurrentDurationSecond(realNow)
    ensures w.CurrentDurationMillisecond(realNow) == v.CurrentDurationMillisecond(realNow)
  {
  }
}
