# RGB LED pattern driver, modelled in Dafny

This project models the core of a small Rust crate. The crate drives an RGB
LED through three Linux sysfs PWM outputs, one each for red, green and blue,
and renders lighting patterns on it from a background thread.

- `sysfs_pwm.dfy` (module `SysfsPwm`) models the PWM handles. It also models
  the meaning of a chain of fallible calls joined with Rust's `?`. Every
  export, unexport, enable, period write and duty-cycle write goes to one
  `Sysfs` object. That object keeps the ordered log of every call attempted,
  and a failure oracle `fails(logSoFar, call)` decides whether each call
  fails. A failing call is still logged. A `Step` is a call, or a validation
  that rejects before any call. `Execute` runs a plan of steps and stops at
  the first failing call or rejection.
- `rgbled.dfy` (module `RgbLedDriver`) models `src/rgbled.rs`: `Colour`,
  `to_percentages`, and the `RgbLed` driver class with its operations and its
  `Drop`.
  - Each driver method is proved against `Execute` of a pure plan function
    (`RenderPlan`, `BrightnessPlan`, `EnablePlan`, `PeriodPlan`, `DropPlan`).
    The lemmas about those plans give the order of the writes, their values,
    and where a failure stops them.
  - `RgbLed::new` is modelled with what happens when setting the periods
    fails. The half-built driver is then dropped, so its `Drop` runs: it
    disables and unexports all three channels, and a failure there panics.
- `patterns.dfy` (module `Patterns`) models `src/lib.rs`: `Pattern`, and the
  `PatternHandler` class with the worker thread it spawns.
  - One turn of the worker loop is a sequence of `Action`s (`Cycle`). `Apply`
    gives the meaning of one action, with every driver error `unwrap`ped into
    a panic of the worker. The render methods are proved to perform exactly
    `ApplyAll` of the cycle.
  - The handler's operations are specified by `StartSpec`, `StopSpec`,
    `SetPatternSpec` and `WorkerCycleSpec` over a `HandlerState`. The class
    methods are proved against these functions.

Some behaviour of the code is modelled as written:

- Breathe divides the loop index by the period in whole milliseconds using
  integer division. Its brightness is therefore 0.0 at every step except
  the P-th, where it is 1.0 (`BreatheIsOneFullStep`).
- A Breathe of under 1 ms evaluates `period.as_millis() - 1` at 0. A debug
  build panics there on the underflow. A release build wraps, then divides
  by zero. Either way the worker panics, which is modelled by the
  `Underflow` action.
- A worker panic during a render cycle happens while the worker holds the
  pattern lock, so it poisons that mutex. After that, `set_pattern` does
  nothing, because it only assigns inside `if let Ok(..)`
  (`SetPatternSpec`). A panic in the worker's prologue, before it takes the
  pattern lock, poisons only the LED lock. Either way `is_running` stays
  set, so `start` never spawns a new worker.
- Breathe issues no sleep (`BreatheHasNoSleep`).
- `src/lib.rs` imports the colour type as `PwmLedColour`, but
  `src/rgbled.rs` defines it as `Colour`. The model uses `Colour` for both.

## Model

| member | source | states |
|---|---|---|
| RgbLedDriver.ToPercentages | src/rgbled.rs:18-24 | exactly three fractions, in the order red, green, blue; each lies in [0, 1], and multiplied by 255 gives back the channel's byte |
| RgbLedDriver.DutyNs | src/rgbled.rs:106-108 | the duty cycle is the fraction of the period truncated to whole nanoseconds: `ns <= fraction * period < ns + 1`, so it never exceeds the period |
| RgbLedDriver.RenderWritesChannelsInOrder | src/rgbled.rs:75-84 | at a brightness in [0, 1], a render is three duty-cycle writes to channels 0, 1, 2 in that order; write i is `floor(channel_i / 255 * brightness * period)` ns, never above the period; no validation rejects it |
| RgbLedDriver.RenderStopsAtFirstFailure | src/rgbled.rs:79-81 | a render issues duty-cycle writes to a prefix of channels 0, 1, 2; it finishes if and only if all three writes were issued and succeeded; on a failure, every earlier write succeeded and the last one issued failed |
| RgbLedDriver.EachPwmStopsAtFirstFailure | src/rgbled.rs:59-64 | `try_for_each` over the three handles applies the operation to a prefix of channels 0, 1, 2 in order; it finishes if and only if all three calls succeeded; on a failure, only the last call issued failed |
| RgbLedDriver.DropDisablesBeforeUnexporting | src/rgbled.rs:114-119 | drop issues a prefix of: disable R, G, B, then unexport R, G, B; an unexport is issued only after all three disables succeeded; drop finishes without panicking if and only if all six calls succeeded |
| RgbLedDriver.SetUpSucceedsExactlyOnCleanRun | src/rgbled.rs:40-50 | after the exports, construction succeeds if and only if exactly the three period writes were issued and all of them succeeded; after a failed period write, the drop's calls follow the period writes issued, and the result is a panic if and only if the drop did not finish, otherwise the period write's error |
| RgbLedDriver.NewSucceedsExactlyOnCleanRun | src/rgbled.rs:35-51 | `RgbLed::new` succeeds if and only if it issued exactly: export R, G, B, then set the default period on R, G, B, and every one of these calls succeeded |
| RgbLedDriver.NewExportFailureIssuesOnlyExports | src/rgbled.rs:36-38 | when an export fails, `new` has issued only a non-empty prefix of the three exports and nothing else: no period write and no drop |
| RgbLedDriver.RgbLed.Assemble | src/rgbled.rs:40-46 | the struct literal: the given handles, the default period of 2 ms, colour black, brightness 1.0; no call is made |
| RgbLedDriver.RgbLed.New | src/rgbled.rs:35-51 | the log grows by exactly the calls of `NewRun`; the driver is returned if and only if `NewRun` says constructed, and it is fresh, with handles R, G, B, the default period, black and brightness 1.0; otherwise the error is returned, or the drop panicked |
| RgbLedDriver.RgbLed.ExportAll | src/rgbled.rs:36-38 | the log grows by the exports of R, G, B up to and including the first that fails; the outcome is that of the export chain |
| RgbLedDriver.RgbLed.SetUp | src/rgbled.rs:40-50 | builds the driver and sets the periods; if that fails, drops the driver; the log and the result are those of `SetUpRun` |
| RgbLedDriver.RgbLed.SetColourRgb | src/rgbled.rs:53-57 | stores the colour before any write, so it is kept even when a write fails; the brightness is unchanged; the log grows by the render of the new colour at the stored brightness |
| RgbLedDriver.RgbLed.SetEnable | src/rgbled.rs:59-64 | the log grows by enable or disable on channels 0, 1, 2, up to the first failure; the result is that run's outcome |
| RgbLedDriver.RgbLed.SetBrightness | src/rgbled.rs:66-73 | a brightness outside [0, 1] is rejected with no call and no change; otherwise it is stored, and the stored colour is rendered at it |
| RgbLedDriver.RgbLed.SetColourWithBrightness | src/rgbled.rs:75-84 | the log grows by the render plan's writes up to the first error, and the result is that run's outcome (loop invariant over the channels) |
| RgbLedDriver.RgbLed.ScaleAll | src/rgbled.rs:77 | same length; every fraction multiplied by the brightness |
| RgbLedDriver.RgbLed.SetAllPeriods | src/rgbled.rs:86-91 | the log grows by the period write on channels 0, 1, 2, up to the first failure; the result is that run's outcome |
| RgbLedDriver.RgbLed.SetPwmDutyCyclePercent | src/rgbled.rs:93-111 | a fraction outside [0, 1], and then an index past the last channel, are rejected with no call; otherwise one truncated duty-cycle write goes to that channel |
| RgbLedDriver.RgbLed.Drop | src/rgbled.rs:114-119 | the log grows by the drop plan's calls up to the first failure; it panics if and only if that run did not finish |
| RgbLedDriver.RgbLed.TryForEach | src/rgbled.rs:60-63 | the log grows by the operation on channels 0, 1, 2, up to and including the first failure (loop invariant) |
| SysfsPwm.ExecuteCharacterised | src/rgbled.rs:79-81 | a `?` chain issues a prefix of the plan's calls and ends for exactly one of three reasons: every call succeeded; the last call issued failed after all earlier ones succeeded; or a validation rejected at the step after the last call issued |
| SysfsPwm.ExecuteAppend | src/rgbled.rs:35-48 | two `?` chains in a row behave as the first one, followed by the second only if the first finished |
| SysfsPwm.ExecuteWithoutFailures | src/rgbled.rs:59-64 | on hardware where no call fails, a plan of calls issues all of them and finishes |
| Patterns.BreatheIsOneFullStep | src/lib.rs:85-93 | Breathe under 1 ms sets the colour and then panics; otherwise it sets the colour and then makes 2P - 1 brightness writes, all 0.0 except the P-th, which is 1.0 |
| Patterns.BreatheHasNoSleep | src/lib.rs:85-93 | a Breathe cycle never sleeps |
| Patterns.BlinkTwiceSleeps | src/lib.rs:67-77 | BlinkTwice sleeps period/8 three times, then period*5/8; in total never longer than the period, and exactly the period if and only if it is a multiple of 8 ns |
| Patterns.HalfPeriodSleeps | src/lib.rs:60-84 | Blink and BlinkBetweenColours sleep period/2 twice; in total never longer than the period, and exactly the period if and only if it is even |
| Patterns.CycleEnds | src/lib.rs:59-94 | no action of a cycle panics by itself if and only if the pattern is not a Breathe under 1 ms; then the cycle's last colour and brightness are the pattern's final ones |
| Patterns.ApplyAllWorker | src/lib.rs:52-96 | the worker never returns to "not spawned"; its state changes only from running to panicked |
| Patterns.ApplyAllHalted | src/lib.rs:52-96 | once the worker has stopped, the rest of what it would do has no effect |
| Patterns.ApplyAllWithoutFailures | src/lib.rs:59-94 | on hardware that never fails, harmless actions keep the worker running; the LED ends on the last colour and brightness set, and every sleep is recorded in order |
| Patterns.CleanCycle | src/lib.rs:59-94 | on hardware that never fails, the worker survives a cycle if and only if the pattern is not a Breathe under 1 ms; it then shows the pattern's final colour and brightness, and the cycle's sleeps are recorded |
| Patterns.HandlerInvariantKept | src/lib.rs:39-46 | start, stop, set_pattern and a worker turn all keep the invariant: a worker exists if and only if `is_running` is set, and the pattern lock is poisoned only by a worker that panicked |
| Patterns.StartOnlyOnce | src/lib.rs:40-46 | `start` while running changes nothing, even after a `stop`; after `start`, `is_running` is set |
| Patterns.StartComesOnDark | src/lib.rs:52-55 | on hardware that never fails, the first `start` sets the three duty cycles to 0 and only then enables the three outputs; the worker is running with brightness 0.0 |
| Patterns.StopEndsWorkerAtNextCycle | src/lib.rs:99-101 | after `stop`, the worker's next turn ends it with no call, no sleep, and no change to colour or brightness |
| Patterns.SetPatternTakesEffectNextCycle | src/lib.rs:33-37 | a pattern set between cycles is what the next cycle renders; once the lock is poisoned, a new pattern is ignored |
| Patterns.RunUninterrupted | src/lib.rs:56-95 | left alone, n turns of the worker render the pattern's cycle n times over; the pattern and the flags are unchanged |
| Patterns.RunCyclesHalted | src/lib.rs:56-95 | once the worker has exited or panicked, further turns change nothing |
| Patterns.PatternHandler.constructor | src/lib.rs:24-31 | the handler holds the driver and the pattern; it is not running; the stop flag is clear; no worker exists yet |
| Patterns.PatternHandler.SetPattern | src/lib.rs:33-37 | the new state is `SetPatternSpec`: the pattern is replaced unless the lock is poisoned |
| Patterns.PatternHandler.Stop | src/lib.rs:99-101 | the new state is `StopSpec`: only the stop flag is set |
| Patterns.PatternHandler.Start | src/lib.rs:39-55 | the new state is `StartSpec`: a no-op while running; otherwise it sets `is_running`, clears the flag, and the new worker runs its prologue (brightness 0.0, then enable) |
| Patterns.PatternHandler.Perform | src/lib.rs:61-64 | one driver call with `unwrap`, or a sleep; the new state is `Apply` of the action; the pattern and the flags are unchanged |
| Patterns.PatternHandler.RenderCycle | src/lib.rs:59-94 | the new state is `ApplyAll` of the pattern's cycle; everything else is unchanged |
| Patterns.PatternHandler.RenderBlink | src/lib.rs:60-66 | performs exactly the Blink cycle |
| Patterns.PatternHandler.RenderBlinkTwice | src/lib.rs:67-77 | performs exactly the BlinkTwice cycle |
| Patterns.PatternHandler.RenderBlinkBetweenColours | src/lib.rs:78-84 | performs exactly the BlinkBetweenColours cycle |
| Patterns.PatternHandler.RenderBreathe | src/lib.rs:85-93 | performs exactly the Breathe cycle, including the panic under 1 ms |
| Patterns.PatternHandler.RenderRising | src/lib.rs:87-89 | the loop for i = 1..=P performs exactly the rising brightness writes (loop invariant) |
| Patterns.PatternHandler.RenderFalling | src/lib.rs:90-92 | the loop for i from P - 2 down to 0 performs exactly the falling brightness writes (loop invariant) |
| Patterns.PatternHandler.WorkerCycle | src/lib.rs:56-95 | the new state is `WorkerCycleSpec`: check the flag, then render one whole cycle of the current pattern; a panic poisons the pattern lock |
| Patterns.PatternHandler.RunWorker | src/lib.rs:56-95 | the new state is that of up to `maxCycles` uninterrupted worker turns, stopping early once the worker exits or panics (loop invariant) |

## Left out

- Threads, `Arc`, `Mutex` and `AtomicBool`: the worker runs sequentially, one whole cycle at a time, between the handler's calls. A `stop` is a plain atomic store, and the worker sees it at the next loop head. A `set_pattern` blocks until it gets the pattern lock. The worker releases that lock only between cycles, and it may take the lock again first, because `Mutex` is not fair. So the new pattern lands at some cycle boundary, possibly several cycles later. The model places each `set_pattern` at the boundary where it gets the lock, and does not model the waiting.
- The `expect` on the LED lock and on the pattern lock in the worker: only the single worker takes the LED lock. The pattern lock is also taken by `set_pattern`, which cannot panic while it holds it. So neither lock is poisoned before the worker takes it, and neither call can fail.
- Real time: a `sleep` only records its duration.
- The `sysfs_pwm` crate itself is not part of this model. Its calls are log entries whose failure is decided by an oracle. Any `Drop` of a bare `Pwm` handle is not modelled.
- `f32` arithmetic is exact `real` arithmetic here, so rounding and NaN are not modelled. The range check `0.0..=1.0` rejects NaN, and this model has no NaN to reject.
- The `as u32` cast of the duty cycle saturates in Rust. Here it is `Floor`, which agrees because the value always lies between 0 and the period.
- The `.context(..)` and `bail!` error messages: errors are kept as values, without their text.
- The `println!` in `start`.
- `Duration` is unbounded nanoseconds, so the overflow panic of `period * 5` for durations near the `u64` limit is not modelled.
- Patterns.PatternHandler.RunWorker: the worker's endless `while` loop is bounded by `maxCycles` turns.
- The worker's `JoinHandle` is discarded, so a running worker may outlive the handler. When the last owner of the driver goes (the handler, or else the worker when it exits or panics), `Drop for RgbLed` runs. `RgbLed.Drop` models that drop, but when it happens in the handler's life is not modelled.
- `examples/cycle.rs` is not part of this model.
