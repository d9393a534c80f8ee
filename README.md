# Stopwatch, modelled in Dafny

A model of the Go package `stopwatch` (file `watch.go`). The package has one type: a
watch that holds a `start` and a `stop` instant. It has:

- two fluent mutators, `Start` and `Stop`, that overwrite one of those fields from the clock and return the same watch;
- `Timer`, which stops the watch and then hands it to a callback;
- read-only accessors for the elapsed time. `Duration` and its unit conversions measure `stop - start`. `CurrentDuration` and its two conversions measure from `start` to the host clock.

Files:

- `go_time.dfy`, module `GoTime`: the parts of Go's `time` package the watch relies on. Instants and durations are integer nanoseconds. It has the unit constants, the zero instant that marks an unset field, and Go's integer division, which truncates toward zero. `TruncDiv` implements that division. The predicate `IsTruncQuotient` gives an independent definition of it (the remainder has the dividend's sign and is smaller than the divisor). The lemmas prove that the two agree, that truncation agrees with Dafny's Euclidean `/` on non-negative operands, that it is symmetric about zero, and that truncating by `b` and then by `c` equals truncating by `b * c`.
- `watch.dfy`, module `Stopwatch`: the class `Watch`, with fields `start` and `stop`. `Start`, `Stop` and `Timer` are methods with `modifies this`. The accessors are functions that read the fields. `CurrentDuration`, `CurrentDurationSecond` and `CurrentDurationMillisecond` read only ``this`start``. `Replay` gives the fields after any sequence of `Start` and `Stop` calls. Each mutator's contract says it is one step of `Replay`, and the lemma `ReplayAppend` proves that a longer history is those steps made one after another. The lemma `ReplayKeepsLatest` proves that only the latest call of each kind matters.
- `watch_scenarios.dfy`, module `StopwatchScenarios`: client code showing what callers get. It covers the usage in the package's tests and example, and a few properties of the package: a second `Stop` overwrites the first, a restart keeps the old stop instant, and a stop before the start truncates toward zero.

Clocks are parameters. `now` is what the package's swappable `Now` hook returns when `Start`, `Stop` or `Timer` run. `realNow` is what Go's `time.Now()` returns. The source reads `time.Now()` directly in `CurrentDuration` (watch.go:95), bypassing the hook, so the model keeps that reading separate. In the code, `CurrentDuration` ignores a substituted `Now`, and the model follows that.

The unset instant is `GoTime.ZeroInstant`. A field holding it is what Go's `IsZero` reports as unset. The numeric accessors of an unstopped watch subtract from it, as the source does: their duration is `ZeroInstant - start`, negative for any start after the zero instant.

## Model

| member | source | states |
|---|---|---|
| `GoTime.TruncDiv` | watch.go:126-138 | Go's integer division of durations: the remainder has the dividend's sign and is smaller than the divisor in magnitude, for negative dividends too |
| `GoTime.TruncQuotientUnique` | watch.go:126-138 | a value has the truncated-remainder property exactly when it equals `TruncDiv`, so the characterisation fixes the result |
| `GoTime.TruncDivOfNonNegative` | watch.go:106-123 | on a non-negative duration, truncating division coincides with Dafny's `/` |
| `GoTime.TruncDivOfNegated` | watch.go:106-123 | negating the duration negates the truncated quotient (truncation toward zero, not flooring) |
| `GoTime.TruncDivNested` | watch.go:126-128 | truncating by `b` and then by `c` equals truncating by `b * c`; this is why whole hours ÷ 24 is whole days |
| `Stopwatch.Watch.Duration` | watch.go:89-103 | the elapsed duration is the offset that takes `start` to `stop` (`start + d == stop`); `duration` and `Duration` are merged, since the exported one only forwards |
| `Stopwatch.Watch.CurrentDuration` | watch.go:94-98 | the current duration is the offset that takes `start` to the host clock reading (`start + d == realNow`); `stop` is outside its read frame |
| `Stopwatch.Watch.Stop` | watch.go:67-70 | `stop` becomes the clock reading, `start` is unchanged, and the same watch is returned |
| `Stopwatch.Watch.Start` | watch.go:73-76 | `start` becomes the clock reading, `stop` is unchanged, and the same watch is returned |
| `Stopwatch.Watch.Timer` | watch.go:62-64 | the watch is stopped at the clock reading first and then handed to the callback exactly once: the watches handed over are `[this]`, and the fields they had at hand-over are `[(old start, now)]` |
| `Stopwatch.Watch.String` | watch.go:79-86 | the placeholder `"0m0.00s"` exactly when `stop` is unset; otherwise the rendering of the elapsed duration `stop - start` |
| `Stopwatch.Watch.Milliseconds` | watch.go:106-108 | the elapsed duration in whole milliseconds, truncated toward zero |
| `Stopwatch.Watch.Seconds` | watch.go:111-113 | the elapsed duration in whole seconds, truncated toward zero |
| `Stopwatch.Watch.Minutes` | watch.go:116-118 | the elapsed duration in whole minutes, truncated toward zero |
| `Stopwatch.Watch.Hours` | watch.go:121-123 | the elapsed duration in whole hours, truncated toward zero |
| `Stopwatch.Watch.Days` | watch.go:126-128 | whole hours divided by 24 and truncated, which equals the elapsed duration in whole 24-hour days |
| `Stopwatch.Watch.CurrentDurationSecond` | watch.go:131-133 | the time from `start` to the host clock in whole seconds, truncated toward zero; reads only `start` |
| `Stopwatch.Watch.CurrentDurationMillisecond` | watch.go:136-138 | the time from `start` to the host clock in whole milliseconds, truncated toward zero; reads only `start` |
| `Stopwatch.ReplayKeepsLatest` | watch.go:67-76 | after any sequence of `Start` and `Stop` calls, `start` is the reading of the latest `Start` and `stop` that of the latest `Stop` (each unchanged if there was none); every call overwrites only its own field |
| `Stopwatch.ReplayAppend` | watch.go:67-76 | replaying one more call continues from the fields the earlier calls left, so the one-call contracts of `Start`, `Stop` and `Timer` compose into any history |
| `Stopwatch.SwappedWatchNegates` | watch.go:106-128 | swapping a watch's start and stop negates its duration and every unit reading, days included: negative durations truncate toward zero, not down |
| `Stopwatch.UnstoppedString` | watch.go:79-83 | corollary of `String`'s contract: an unstopped watch renders as the placeholder, whatever its start |
| `Stopwatch.CurrentDurationIgnoresStop` | watch.go:130-138 | corollary of the ``reads this`start`` frame: two watches with the same start give the same current durations, whatever their stop instants |
| `StopwatchScenarios.StartThenStop` | watch.go:88-103 | started at `a` and stopped at `b`, `Duration` is `b - a` and each accessor is that duration truncated by its unit; days agree with hours ÷ 24 |
| `StopwatchScenarios.StopTwice` | watch.go:67-70 | after two `Stop` calls the duration runs to the later clock reading only |
| `StopwatchScenarios.Restart` | watch.go:73-76 | a restart moves `start` and keeps the earlier `stop` |
| `StopwatchScenarios.NeverStopped` | watch.go:79-83 | corollary of `StartAt` and `String`'s contract: a watch that was started and never stopped renders as the placeholder |
| `StopwatchScenarios.StringAfterThirtyMilliseconds` | watch_test.go:30-46 | started 30 ms back and stopped within the next millisecond, the watch renders its duration (not the placeholder), which is 30 whole milliseconds |
| `StopwatchScenarios.DeferredTimer` | watch_test.go:107-114 | started 30 minutes back and timed within the next second, the callback is handed the watch once, already stopped at the exit reading, and that watch reads 30 minutes and 1800 seconds |
| `StopwatchScenarios.CurrentMilliseconds` | watch_test.go:77-91 | started 30 ms back, the current duration reads exactly 30 milliseconds without a `Stop` |
| `StopwatchScenarios.CurrentSeconds` | watch_test.go:93-105 | started 35 s back, the current duration reads exactly 35 seconds |
| `StopwatchScenarios.StoppedBeforeStart` | watch.go:106-113 | a duration of -1.5 s reads as -1 second and -1500 milliseconds (truncation toward zero) |

## Left out

- `String`: the non-placeholder branch returns `DurationText(d)`, which stands symbolically for Go's `time.Duration.String()`. That formatter is library code and is not part of this model, so the test patterns `30.<digits>ms` and `30m0.<digits>s` are checked only through the numeric accessors.
- Integer width: durations and Go's `int` are 64-bit, and `time.Time.Sub` saturates at the ends of that range. The model uses unbounded integers and plain subtraction. In particular it does not reproduce the saturated value that an unstopped watch's accessors return in Go.
- The representation of Go's zero `Time` (January 1 of year 1) is not modelled. The unset instant is the integer `ZeroInstant`.
- `Seconds`, `Minutes` and `Hours` go through `float64` in the source before `int(...)` truncates. The model uses exact truncating integer division, with no floating-point rounding.
- The swappable `Now` hook (watch.go:52-54) and the real clock are not modelled. Every operation receives its clock reading as a parameter. The tests' save-and-restore helpers (watch_test.go:12-28) become the explicit `realAtStart -` offset in the scenarios.
- The package constructors `Start()` and `StartAt(t)` are not in the modelled files. `Watch.StartAt` is an assumed equivalent that sets `start` and leaves `stop` unset; `StartAt(now)` stands for `Start()`.
- `Timer`'s callback is arbitrary caller code, so the model does not run it. `Timer` returns the list of watches the callback is handed, with the fields each had at hand-over. It does not capture what the callback does with the watch, such as calling `Start` or `Stop` on it again.
- The `Watch` interface and the `TimerFunc` type (watch.go:8-50) are not separate entities in the model. The class stands for the one implementation.
- Concurrency: the source has no synchronisation and the model is sequential.
