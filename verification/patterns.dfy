/** The crate root: a `Pattern` is rendered cycle after cycle by a worker
    that owns the RGB LED driver; the `PatternHandler` starts that worker,
    asks it to stop, and swaps the pattern it renders. The worker runs
    sequentially here, one whole cycle at a time, between the handler's
    own calls. */
module Patterns {
  import opened SysfsPwm
  import opened RgbLedDriver

  /** A `std::time::Duration`, as a whole number of nanoseconds. */
  type Duration = nat

  const NanosPerMilli: nat := 1_000_000

  /** `Duration::as_millis`: whole milliseconds, rounded down. */
  function Millis(d: Duration): nat
  {
    d / NanosPerMilli
  }

  datatype Pattern =
    | Blink(period: Duration, colour: Colour)
    | BlinkTwice(period: Duration, colour: Colour)
    | BlinkBetweenColours(period: Duration, colour1: Colour, colour2: Colour)
    | Breathe(period: Duration, colour: Colour)

  /** One thing the worker does to the LED, or the panic that ends it:
      `Underflow` is `period.as_millis() - 1` evaluated at 0 ms. */
  datatype Action =
    | SetColour(colour: Colour)
    | SetBrightness(level: real)
    | SetEnable(on: bool)
    | Sleep(ns: Duration)
    | Underflow

  /** The rising loop of Breathe: brightness `i / P` in integer division
      for i = 1 ..= P. */
  function Rising(millis: nat): seq<Action>
  {
    seq(millis, k requires 0 <= k < millis => SetBrightness(((k + 1) / millis) as real))
  }

  /** The falling loop of Breathe: brightness `i / P` for i = P - 2 down to 0. */
  function Falling(millis: nat): seq<Action>
    requires millis > 0
  {
    seq(millis - 1, k requires 0 <= k < millis - 1 => SetBrightness(((millis - 2 - k) / millis) as real))
  }

  /** The body of the worker loop for one pattern, in the order it is issued. */
  function Cycle(p: Pattern): seq<Action>
  {
    match p
    case Blink(d, c) =>
      [SetColour(c), SetBrightness(1.0), Sleep(d / 2), SetBrightness(0.0), Sleep(d / 2)]
    case BlinkTwice(d, c) =>
      [SetColour(c), SetBrightness(1.0), Sleep(d / 8), SetBrightness(0.0), Sleep(d / 8),
       SetBrightness(1.0), Sleep(d / 8), SetBrightness(0.0), Sleep(d * 5 / 8)]
    case BlinkBetweenColours(d, c1, c2) =>
      [SetColour(c1), SetBrightness(1.0), Sleep(d / 2), SetColour(c2), Sleep(d / 2)]
    case Breathe(d, c) =>
      var millis := Millis(d);
      [SetColour(c)] + Rising(millis) + (if millis == 0 then [Underflow] else Falling(millis))
  }

  /** What the worker does before its loop: dark, then outputs on. */
  const Prologue: seq<Action> := [SetBrightness(0.0), SetEnable(true)]

  /** The worker thread: not spawned yet, looping, returned after seeing
      the stop flag, or ended by a panic (`Crashed`). */
  datatype Worker = NotSpawned | Running | Exited | Crashed

  /** The fixed part of the hardware behind the driver. */
  datatype Hw = Hw(fails: Oracle, pwms: seq<Pwm>, periodNs: nat)

  /** What the worker can change: the driver's colour and brightness, the
      sysfs call log, the sleeps issued so far, and its own state. */
  datatype World = World(colour: Colour, brightness: real, log: seq<Call>, slept: seq<Duration>, worker: Worker)

  /** One action, with each driver call `unwrap`ped: an error panics the worker. */
  function Apply(hw: Hw, w: World, a: Action): World
  {
    if !w.worker.Running? then w
    else
      match a
      case SetColour(c) =>
        var run := Execute(hw.fails, w.log, RenderPlan(hw.pwms, hw.periodNs, c, w.brightness));
        w.(colour := c, log := w.log + run.issued, worker := if run.outcome.Done? then Running else Crashed)
      case SetBrightness(b) =>
        var run := Execute(hw.fails, w.log, BrightnessPlan(hw.pwms, hw.periodNs, w.colour, b));
        w.(brightness := if InUnit(b) then b else w.brightness, log := w.log + run.issued,
           worker := if run.outcome.Done? then Running else Crashed)
      case SetEnable(on) =>
        var run := Execute(hw.fails, w.log, EnablePlan(hw.pwms, on));
        w.(log := w.log + run.issued, worker := if run.outcome.Done? then Running else Crashed)
      case Sleep(ns) =>
        w.(slept := w.slept + [ns])
      case Underflow =>
        w.(worker := Crashed)
  }

  /** The actions applied in order. */
  function ApplyAll(hw: Hw, w: World, acts: seq<Action>): World
    decreases |acts|
  {
    if acts == [] then w else Apply(hw, ApplyAll(hw, w, acts[..|acts| - 1]), acts[|acts| - 1])
  }

  /** The sleeps among the actions, in order. */
  function Sleeps(acts: seq<Action>): seq<Duration>
    decreases |acts|
  {
    if acts == [] then []
    else (if acts[0].Sleep? then [acts[0].ns] else []) + Sleeps(acts[1..])
  }

  function Total(s: seq<Duration>): nat
    decreases |s|
  {
    if s == [] then 0 else s[0] + Total(s[1..])
  }

  /** The colour of the last `SetColour`, or `d` when there is none. */
  function LastColour(acts: seq<Action>, d: Colour): Colour
    decreases |acts|
  {
    if acts == [] then d
    else if acts[|acts| - 1].SetColour? then acts[|acts| - 1].colour
    else LastColour(acts[..|acts| - 1], d)
  }

  /** The level of the last `SetBrightness`, or `d` when there is none. */
  function LastBrightness(acts: seq<Action>, d: real): real
    decreases |acts|
  {
    if acts == [] then d
    else if acts[|acts| - 1].SetBrightness? then acts[|acts| - 1].level
    else LastBrightness(acts[..|acts| - 1], d)
  }

  /** No action panics by itself: no underflow and no brightness the driver rejects. */
  predicate Harmless(acts: seq<Action>)
  {
    forall i :: 0 <= i < |acts| ==>
      !acts[i].Underflow? && (acts[i].SetBrightness? ==> InUnit(acts[i].level))
  }

  /** The colour a pattern leaves shown at the end of a cycle. */
  function FinalColour(p: Pattern): Colour
  {
    match p
    case Blink(_, c) => c
    case BlinkTwice(_, c) => c
    case BlinkBetweenColours(_, _, c2) => c2
    case Breathe(_, c) => c
  }

  /** The brightness a pattern leaves at the end of a cycle. */
  function FinalBrightness(p: Pattern): real
  {
    match p
    case Blink(_, _) => 0.0
    case BlinkTwice(_, _) => 0.0
    case BlinkBetweenColours(_, _, _) => 1.0
    case Breathe(d, _) => if Millis(d) == 1 then 1.0 else 0.0
  }

  // ---------------------------------------------------------------------
  // Applying actions

  lemma {:induction false} ApplyAllAppend(hw: Hw, w: World, a: seq<Action>, b: seq<Action>)
    ensures ApplyAll(hw, w, a + b) == ApplyAll(hw, ApplyAll(hw, w, a), b)
    decreases |b|
  {
    if b == [] {
      assert a + b == a;
    } else {
      var b' := b[..|b| - 1];
      assert (a + b)[..|a + b| - 1] == a + b';
      ApplyAllAppend(hw, w, a, b');
    }
  }

  /** Once the worker has stopped, nothing it would still do happens. */
  lemma {:induction false} ApplyAllHalted(hw: Hw, w: World, acts: seq<Action>)
    requires !w.worker.Running?
    ensures ApplyAll(hw, w, acts) == w
    decreases |acts|
  {
    if acts != [] {
      ApplyAllHalted(hw, w, acts[..|acts| - 1]);
    }
  }

  /** The worker never returns to "not spawned", and only a running worker
      changes state, to "panicked". */
  lemma {:induction false} ApplyAllWorker(hw: Hw, w: World, acts: seq<Action>)
    ensures var r := ApplyAll(hw, w, acts);
      r.worker == w.worker || (w.worker.Running? && r.worker.Crashed?)
    decreases |acts|
  {
    if acts != [] {
      ApplyAllWorker(hw, w, acts[..|acts| - 1]);
    }
  }

  /** Worlds that follow each other by the actions, one action at a time,
      are what `ApplyAll` computes. */
  lemma {:induction false} ApplyAllSteps(hw: Hw, acts: seq<Action>, ws: seq<World>)
    requires |ws| == |acts| + 1
    requires forall k :: 0 <= k < |acts| ==> ws[k + 1] == Apply(hw, ws[k], acts[k])
    ensures ApplyAll(hw, ws[0], acts) == ws[|acts|]
    decreases |acts|
  {
    if acts != [] {
      var n := |acts| - 1;
      ApplyAllSteps(hw, acts[..n], ws[..n + 1]);
    }
  }

  /** `ApplyAll` one action further. */
  lemma ApplyAllSnoc(hw: Hw, w: World, acts: seq<Action>, a: Action)
    ensures ApplyAll(hw, w, acts + [a]) == Apply(hw, ApplyAll(hw, w, acts), a)
  {
    assert (acts + [a])[..|acts|] == acts;
  }

  lemma {:induction false} SleepsAppend(a: seq<Action>, b: seq<Action>)
    ensures Sleeps(a + b) == Sleeps(a) + Sleeps(b)
    decreases |a|
  {
    if a == [] {
      assert a + b == b;
    } else {
      var head: seq<Duration> := if a[0].Sleep? then [a[0].ns] else [];
      calc {
        Sleeps(a + b);
        == { assert (a + b)[0] == a[0]; assert (a + b)[1..] == a[1..] + b; }
        head + Sleeps(a[1..] + b);
        == { SleepsAppend(a[1..], b); }
        head + (Sleeps(a[1..]) + Sleeps(b));
        ==
        (head + Sleeps(a[1..])) + Sleeps(b);
      }
    }
  }

  /** On hardware that never fails, harmless actions keep the worker
      running; the LED ends with the last colour and brightness set, and
      every sleep is recorded in order. */
  lemma {:induction false} ApplyAllWithoutFailures(hw: Hw, w: World, acts: seq<Action>)
    requires NeverFails(hw.fails) && |hw.pwms| == 3
    requires w.worker.Running? && InUnit(w.brightness)
    requires Harmless(acts)
    ensures var r := ApplyAll(hw, w, acts);
      r.worker.Running? && InUnit(r.brightness) && r.slept == w.slept + Sleeps(acts) &&
      r.colour == LastColour(acts, w.colour) && r.brightness == LastBrightness(acts, w.brightness)
    decreases |acts|
  {
    if acts != [] {
      var init := acts[..|acts| - 1];
      var a := acts[|acts| - 1];
      assert Harmless(init) by {
        forall i | 0 <= i < |init| ensures !init[i].Underflow? && (init[i].SetBrightness? ==> InUnit(init[i].level)) {
          assert init[i] == acts[i];
        }
      }
      ApplyAllWithoutFailures(hw, w, init);
      var m := ApplyAll(hw, w, init);
      assert acts == init + [a];
      SleepsAppend(init, [a]);
      assert [a][1..] == [];
      match a
      case SetColour(c) =>
        RenderWritesChannelsInOrder(hw.pwms, hw.periodNs, c, m.brightness);
        ExecuteWithoutFailures(hw.fails, m.log, RenderPlan(hw.pwms, hw.periodNs, c, m.brightness));
      case SetBrightness(b) =>
        RenderWritesChannelsInOrder(hw.pwms, hw.periodNs, m.colour, b);
        ExecuteWithoutFailures(hw.fails, m.log, BrightnessPlan(hw.pwms, hw.periodNs, m.colour, b));
      case SetEnable(on) =>
        ExecuteWithoutFailures(hw.fails, m.log, EnablePlan(hw.pwms, on));
      case Sleep(_) =>
      case Underflow =>
    }
  }

  // ---------------------------------------------------------------------
  // The cycles

  lemma SmallQuotient(a: int, p: int)
    requires 0 <= a < p
    ensures a / p == 0
  {
  }

  /** Breathe in integer division: under 1 ms it panics right after setting
      the colour; otherwise it makes 2P - 1 brightness writes, all 0.0 but
      the P-th, which is 1.0, and never sleeps. */
  lemma BreatheIsOneFullStep(d: Duration, c: Colour)
    ensures var cyc := Cycle(Breathe(d, c)); var P := Millis(d);
      (P == 0 ==> cyc == [SetColour(c), Underflow]) &&
      (P > 0 ==>
        |cyc| == 2 * P && cyc[0] == SetColour(c) &&
        forall i :: 1 <= i < 2 * P ==> cyc[i] == SetBrightness(if i == P then 1.0 else 0.0))
  {
    var P := Millis(d);
    var cyc := Cycle(Breathe(d, c));
    if P > 0 {
      forall i | 1 <= i < 2 * P
        ensures cyc[i] == SetBrightness(if i == P then 1.0 else 0.0)
      {
        if i <= P {
          assert cyc[i] == Rising(P)[i - 1];
          if i < P {
            SmallQuotient(i, P);
          }
        } else {
          assert cyc[i] == Falling(P)[i - P - 1];
          SmallQuotient(2 * P - 1 - i, P);
        }
      }
    }
  }

  lemma BreatheHasNoSleep(d: Duration, c: Colour)
    ensures Sleeps(Cycle(Breathe(d, c))) == []
  {
    var cyc := Cycle(Breathe(d, c));
    BreatheIsOneFullStep(d, c);
    NoSleeps(cyc);
  }

  lemma {:induction false} NoSleeps(acts: seq<Action>)
    requires forall i :: 0 <= i < |acts| ==> !acts[i].Sleep?
    ensures Sleeps(acts) == []
    decreases |acts|
  {
    if acts != [] {
      NoSleeps(acts[1..]);
    }
  }

  lemma {:induction false} LastColourSkips(a: seq<Action>, b: seq<Action>, d: Colour)
    requires forall i :: 0 <= i < |b| ==> !b[i].SetColour?
    ensures LastColour(a + b, d) == LastColour(a, d)
    decreases |b|
  {
    if b == [] {
      assert a + b == a;
    } else {
      assert (a + b)[..|a + b| - 1] == a + b[..|b| - 1];
      LastColourSkips(a, b[..|b| - 1], d);
    }
  }

  lemma {:induction false} LastBrightnessSkips(a: seq<Action>, b: seq<Action>, d: real)
    requires forall i :: 0 <= i < |b| ==> !b[i].SetBrightness?
    ensures LastBrightness(a + b, d) == LastBrightness(a, d)
    decreases |b|
  {
    if b == [] {
      assert a + b == a;
    } else {
      assert (a + b)[..|a + b| - 1] == a + b[..|b| - 1];
      LastBrightnessSkips(a, b[..|b| - 1], d);
    }
  }

  /** Every cycle is harmless except a Breathe of under 1 ms, and each one
      ends on the pattern's final colour and brightness. */
  lemma CycleEnds(p: Pattern, c0: Colour, b0: real)
    ensures Harmless(Cycle(p)) <==> !(p.Breathe? && Millis(p.period) == 0)
    ensures Harmless(Cycle(p)) ==>
      LastColour(Cycle(p), c0) == FinalColour(p) && LastBrightness(Cycle(p), b0) == FinalBrightness(p)
  {
    var cyc := Cycle(p);
    match p
    case Blink(d, c) =>
      LastColourSkips([SetColour(c)], cyc[1..], c0);
      assert [SetColour(c)] + cyc[1..] == cyc;
      LastBrightnessSkips(cyc[..4], cyc[4..], b0);
      assert cyc[..4] + cyc[4..] == cyc;
    case BlinkTwice(d, c) =>
      LastColourSkips([SetColour(c)], cyc[1..], c0);
      assert [SetColour(c)] + cyc[1..] == cyc;
      LastBrightnessSkips(cyc[..8], cyc[8..], b0);
      assert cyc[..8] + cyc[8..] == cyc;
    case BlinkBetweenColours(d, c1, c2) =>
      LastColourSkips(cyc[..4], cyc[4..], c0);
      assert cyc[..4] + cyc[4..] == cyc;
      LastBrightnessSkips(cyc[..2], cyc[2..], b0);
      assert cyc[..2] + cyc[2..] == cyc;
    case Breathe(d, c) =>
      var P := Millis(d);
      BreatheIsOneFullStep(d, c);
      if P == 0 {
        assert cyc[1].Underflow?;
      } else {
        assert Harmless(cyc);
        LastColourSkips([SetColour(c)], cyc[1..], c0);
        assert [SetColour(c)] + cyc[1..] == cyc;
      }
  }

  /** Three eighths and five eighths, each rounded down, add up to at most
      the whole, and to the whole exactly when it divides by 8. */
  lemma EighthsAddUp(d: nat)
    ensures 3 * (d / 8) + d * 5 / 8 <= d
    ensures 3 * (d / 8) + d * 5 / 8 == d <==> d % 8 == 0
  {
    var q, r := d / 8, d % 8;
    assert d * 5 == 8 * (5 * q) + 5 * r;
    assert d * 5 / 8 == 5 * q + 5 * r / 8;
    assert 5 * r / 8 <= r && (5 * r / 8 == r <==> r == 0) by {
      assert 0 <= r < 8;
    }
  }

  /** BlinkTwice sleeps period/8 three times, then period*5/8: never longer
      than the period, and exactly the period when it divides by 8. */
  lemma BlinkTwiceSleeps(d: Duration, c: Colour)
    ensures Sleeps(Cycle(BlinkTwice(d, c))) == [d / 8, d / 8, d / 8, d * 5 / 8]
    ensures Total(Sleeps(Cycle(BlinkTwice(d, c)))) <= d
    ensures Total(Sleeps(Cycle(BlinkTwice(d, c)))) == d <==> d % 8 == 0
  {
    BlinkTwiceSleepList(d, c);
    var s := [d / 8, d / 8, d / 8, d * 5 / 8];
    assert Total(s[4..]) == 0 by { assert s[4..] == []; }
    assert Total(s[3..]) == d * 5 / 8;
    assert Total(s[2..]) == d / 8 + d * 5 / 8;
    assert Total(s[1..]) == 2 * (d / 8) + d * 5 / 8;
    assert s[0..] == s;
    EighthsAddUp(d);
  }

  lemma BlinkTwiceSleepList(d: Duration, c: Colour)
    ensures Sleeps(Cycle(BlinkTwice(d, c))) == [d / 8, d / 8, d / 8, d * 5 / 8]
  {
    var cyc := Cycle(BlinkTwice(d, c));
    var e := d / 8;
    assert cyc[..5] + cyc[5..] == cyc;
    SleepsAppend(cyc[..5], cyc[5..]);
    SleepsOfFive(SetColour(c), SetBrightness(1.0), e, SetBrightness(0.0), Sleep(e));
    assert cyc[..5] == [SetColour(c), SetBrightness(1.0), Sleep(e), SetBrightness(0.0), Sleep(e)];
    SleepsOfFive(SetColour(c), SetBrightness(1.0), e, SetBrightness(0.0), Sleep(d * 5 / 8));
    assert cyc[5..] == [SetBrightness(1.0), Sleep(e), SetBrightness(0.0), Sleep(d * 5 / 8)];
  }

  /** The sleeps of five actions of which only the third and maybe the
      last sleep, and of the last four of them. */
  lemma SleepsOfFive(first: Action, second: Action, ns: Duration, fourth: Action, last: Action)
    requires !first.Sleep? && !second.Sleep? && !fourth.Sleep?
    ensures Sleeps([first, second, Sleep(ns), fourth, last]) == [ns] + (if last.Sleep? then [last.ns] else [])
    ensures Sleeps([second, Sleep(ns), fourth, last]) == [ns] + (if last.Sleep? then [last.ns] else [])
  {
    var s := [first, second, Sleep(ns), fourth, last];
    var t := s[1..];
    assert t == [second, Sleep(ns), fourth, last];
    assert Sleeps(t[3..]) == (if last.Sleep? then [last.ns] else []) by {
      assert t[3..][1..] == [];
    }
    assert Sleeps(t[2..]) == Sleeps(t[3..]);
    assert Sleeps(t[1..]) == [ns] + Sleeps(t[2..]);
    assert Sleeps(t) == Sleeps(t[1..]);
  }

  /** Blink and BlinkBetweenColours sleep period/2 twice: never longer than
      the period, and exactly the period when it is even. */
  lemma HalfPeriodSleeps(p: Pattern)
    requires p.Blink? || p.BlinkBetweenColours?
    ensures Sleeps(Cycle(p)) == [p.period / 2, p.period / 2]
    ensures Total(Sleeps(Cycle(p))) <= p.period
    ensures Total(Sleeps(Cycle(p))) == p.period <==> p.period % 2 == 0
  {
    var h := p.period / 2;
    var cyc := Cycle(p);
    SleepsOfFive(cyc[0], cyc[1], h, cyc[3], Sleep(h));
    var s := [h, h];
    assert Total(s[2..]) == 0 by { assert s[2..] == []; }
    assert Total(s[1..]) == h;
    assert s[0..] == s;
  }

  /** One cycle on hardware that never fails: the worker keeps running
      exactly when the pattern is not a Breathe of under 1 ms, and then the
      LED shows the pattern's final colour and brightness and the cycle's
      sleeps are recorded. */
  lemma CleanCycle(hw: Hw, w: World, p: Pattern)
    requires NeverFails(hw.fails) && |hw.pwms| == 3
    requires w.worker.Running? && InUnit(w.brightness)
    ensures var r := ApplyAll(hw, w, Cycle(p));
      (r.worker.Running? <==> !(p.Breathe? && Millis(p.period) == 0)) &&
      (r.worker.Running? ==>
        r.colour == FinalColour(p) && r.brightness == FinalBrightness(p) && r.slept == w.slept + Sleeps(Cycle(p)))
  {
    CycleEnds(p, w.colour, w.brightness);
    if Harmless(Cycle(p)) {
      ApplyAllWithoutFailures(hw, w, Cycle(p));
    } else {
      var cyc := Cycle(p);
      BreatheIsOneFullStep(p.period, p.colour);
      assert cyc == [SetColour(p.colour)] + [Underflow];
      ApplyAllAppend(hw, w, [SetColour(p.colour)], [Underflow]);
      assert [Underflow][..0] == [];
    }
  }

  // ---------------------------------------------------------------------
  // The handler

  /** Everything a `PatternHandler` and its worker hold. `patternPoisoned`
      records a panic of the worker while it held the pattern lock. */
  datatype HandlerState = HandlerState(pattern: Pattern, isRunning: bool, stopFlag: bool,
                                       patternPoisoned: bool, world: World)

  /** At most one worker: it exists exactly when `is_running` is set, and
      the pattern lock is poisoned only by a worker that panicked. */
  predicate HandlerInvariant(h: HandlerState)
  {
    (h.isRunning <==> !h.world.worker.NotSpawned?) && (h.patternPoisoned ==> h.world.worker.Crashed?)
  }

  /** `start`: a no-op when already running; otherwise set `is_running`,
      clear the stop flag, spawn the worker and run its prologue. */
  function StartSpec(hw: Hw, h: HandlerState): HandlerState
  {
    if h.isRunning then h
    else h.(isRunning := true, stopFlag := false, world := ApplyAll(hw, h.world.(worker := Running), Prologue))
  }

  /** `stop`: only the flag. */
  function StopSpec(h: HandlerState): HandlerState
  {
    h.(stopFlag := true)
  }

  /** `set_pattern`: replace the pattern, unless the lock is poisoned. */
  function SetPatternSpec(h: HandlerState, p: Pattern): HandlerState
  {
    if h.patternPoisoned then h else h.(pattern := p)
  }

  /** One turn of the worker loop: check the flag, then render a whole
      cycle of the pattern read at its start. */
  function WorkerCycleSpec(hw: Hw, h: HandlerState): HandlerState
  {
    if !h.world.worker.Running? then h
    else if h.stopFlag then h.(world := h.world.(worker := Exited))
    else
      var w := ApplyAll(hw, h.world, Cycle(h.pattern));
      h.(world := w, patternPoisoned := h.patternPoisoned || !w.worker.Running?)
  }

  function Repeat(acts: seq<Action>, n: nat): seq<Action>
  {
    if n == 0 then [] else Repeat(acts, n - 1) + acts
  }

  /** `n` turns of the worker loop with nothing else happening meanwhile. */
  function RunCycles(hw: Hw, h: HandlerState, n: nat): HandlerState
  {
    if n == 0 then h else WorkerCycleSpec(hw, RunCycles(hw, h, n - 1))
  }

  /** Every handler operation and every worker turn keeps the invariant. */
  lemma HandlerInvariantKept(hw: Hw, h: HandlerState, p: Pattern)
    requires HandlerInvariant(h)
    ensures HandlerInvariant(StartSpec(hw, h))
    ensures HandlerInvariant(StopSpec(h))
    ensures HandlerInvariant(SetPatternSpec(h, p))
    ensures HandlerInvariant(WorkerCycleSpec(hw, h))
  {
    ApplyAllWorker(hw, h.world.(worker := Running), Prologue);
    ApplyAllWorker(hw, h.world, Cycle(h.pattern));
  }

  /** `start` while running changes nothing; in particular a `start` after
      `stop` does not restart anything, since `is_running` stays set. */
  lemma StartOnlyOnce(hw: Hw, h: HandlerState)
    ensures h.isRunning ==> StartSpec(hw, h) == h
    ensures h.isRunning ==> StartSpec(hw, StopSpec(h)) == StopSpec(h)
    ensures StartSpec(hw, h).isRunning
  {
  }

  /** On hardware that never fails, the first `start` sets every duty cycle
      to 0 and only then enables the three outputs, so the LED comes on dark. */
  lemma StartComesOnDark(hw: Hw, h: HandlerState)
    requires NeverFails(hw.fails) && |hw.pwms| == 3
    requires !h.isRunning
    ensures var s := StartSpec(hw, h);
      s.isRunning && !s.stopFlag && s.pattern == h.pattern &&
      s.world.worker.Running? && s.world.colour == h.world.colour && s.world.brightness == 0.0 &&
      s.world.log == h.world.log +
        [Call(hw.pwms[0], SetDutyCycleNs(0)), Call(hw.pwms[1], SetDutyCycleNs(0)), Call(hw.pwms[2], SetDutyCycleNs(0)),
         Call(hw.pwms[0], Enable(true)), Call(hw.pwms[1], Enable(true)), Call(hw.pwms[2], Enable(true))]
  {
    var w0 := h.world.(worker := Running);
    var dark := BrightnessPlan(hw.pwms, hw.periodNs, w0.colour, 0.0);
    RenderWritesChannelsInOrder(hw.pwms, hw.periodNs, w0.colour, 0.0);
    ExecuteWithoutFailures(hw.fails, w0.log, dark);
    CallsOnlyPlan(hw.fails, w0.log, dark);
    var w1 := Apply(hw, w0, SetBrightness(0.0));
    var on := EnablePlan(hw.pwms, true);
    ExecuteWithoutFailures(hw.fails, w1.log, on);
    CallsOnlyPlan(hw.fails, w1.log, on);
    assert Prologue[..1] == [SetBrightness(0.0)];
    assert [SetBrightness(0.0)][..0] == [];
    assert ApplyAll(hw, w0, Prologue[..1]) == w1;
  }

  /** After `stop`, the next turn of the worker ends it without a single
      call or sleep. */
  lemma StopEndsWorkerAtNextCycle(hw: Hw, h: HandlerState)
    requires h.world.worker.Running?
    ensures var r := WorkerCycleSpec(hw, StopSpec(h));
      r.world.worker == Exited && r.world.log == h.world.log && r.world.slept == h.world.slept &&
      r.world.colour == h.world.colour && r.world.brightness == h.world.brightness
  {
  }

  /** A pattern set between cycles is what the next cycle renders; once
      the worker has panicked under the lock, a new pattern is ignored. */
  lemma SetPatternTakesEffectNextCycle(hw: Hw, h: HandlerState, p: Pattern)
    requires h.world.worker.Running? && !h.stopFlag
    ensures !h.patternPoisoned ==> WorkerCycleSpec(hw, SetPatternSpec(h, p)).world == ApplyAll(hw, h.world, Cycle(p))
    ensures h.patternPoisoned ==> SetPatternSpec(h, p).pattern == h.pattern
  {
  }

  /** Left alone, the worker renders its pattern's cycle `n` times over;
      the pattern and the flags stay as they were. */
  lemma {:induction false} RunUninterrupted(hw: Hw, h: HandlerState, n: nat)
    requires h.world.worker.Running? && !h.stopFlag
    ensures var r := RunCycles(hw, h, n);
      r.world == ApplyAll(hw, h.world, Repeat(Cycle(h.pattern), n)) &&
      r.pattern == h.pattern && r.stopFlag == h.stopFlag && r.isRunning == h.isRunning
  {
    if n > 0 {
      RunUninterrupted(hw, h, n - 1);
      var prev := RunCycles(hw, h, n - 1);
      ApplyAllAppend(hw, h.world, Repeat(Cycle(h.pattern), n - 1), Cycle(h.pattern));
      if !prev.world.worker.Running? {
        ApplyAllHalted(hw, prev.world, Cycle(h.pattern));
      }
    }
  }

  /** Once the worker has stopped, further turns change nothing. */
  lemma {:induction false} RunCyclesHalted(hw: Hw, h: HandlerState, n: nat, m: nat)
    requires n <= m
    requires !RunCycles(hw, h, n).world.worker.Running?
    ensures RunCycles(hw, h, m) == RunCycles(hw, h, n)
    decreases m
  {
    if n < m {
      RunCyclesHalted(hw, h, n, m - 1);
    }
  }

  /** `PatternHandler`, with the worker it spawns. The worker's state and
      its sleeps are fields here, since the worker runs between calls. */
  class PatternHandler {
    const driver: RgbLed
    var pattern: Pattern
    var isRunning: bool
    var stopFlag: bool
    var patternPoisoned: bool
    var worker: Worker
    var slept: seq<Duration>

    ghost predicate Valid()
      reads this, driver
    {
      driver.Valid() &&
      (isRunning <==> !worker.NotSpawned?) && (patternPoisoned ==> worker.Crashed?)
    }

    function Hardware(): Hw
    {
      Hw(driver.sysfs.fails, driver.pwms, driver.periodNs)
    }

    function Snapshot(): HandlerState
      reads this, driver, driver.sysfs
    {
      HandlerState(pattern, isRunning, stopFlag, patternPoisoned,
                   World(driver.colour, driver.brightness, driver.sysfs.log, slept, worker))
    }

    /** `PatternHandler::new`: nothing runs yet. */
    constructor(rgbLed: RgbLed, pattern: Pattern)
      requires rgbLed.Valid()
      ensures Valid() && driver == rgbLed
      ensures Snapshot() == HandlerState(pattern, false, false, false,
                                         World(rgbLed.colour, rgbLed.brightness, rgbLed.sysfs.log, [], NotSpawned))
    {
      driver := rgbLed;
      this.pattern := pattern;
      isRunning := false;
      stopFlag := false;
      patternPoisoned := false;
      worker := NotSpawned;
      slept := [];
    }

    /** `set_pattern`. */
    method SetPattern(p: Pattern)
      requires Valid()
      modifies this
      ensures Valid() && Snapshot() == SetPatternSpec(old(Snapshot()), p)
    {
      if !patternPoisoned {
        pattern := p;
      }
    }

    /** `stop`. */
    method Stop()
      requires Valid()
      modifies this
      ensures Valid() && Snapshot() == StopSpec(old(Snapshot()))
    {
      stopFlag := true;
    }

    /** `start`, with the worker's prologue, which reads neither the
        pattern nor the flag. */
    method Start()
      requires Valid()
      modifies this, driver, driver.sysfs
      ensures Valid() && Snapshot() == StartSpec(Hardware(), old(Snapshot()))
    {
      if isRunning {
        return;
      }
      isRunning := true;
      stopFlag := false;
      worker := Running;
      ghost var w0 := Snapshot().world;
      Perform(SetBrightness(0.0));
      ghost var w1 := Snapshot().world;
      Perform(SetEnable(true));
      ApplyAllSteps(Hardware(), Prologue, [w0, w1, Snapshot().world]);
    }

    /** One action of the worker on the driver; a driver error is
        `unwrap`ped into a panic of the worker. */
    method Perform(a: Action)
      requires Valid()
      modifies this, driver, driver.sysfs
      ensures Valid()
      ensures pattern == old(pattern) && isRunning == old(isRunning) && stopFlag == old(stopFlag)
      ensures patternPoisoned == old(patternPoisoned)
      ensures Snapshot().world == Apply(Hardware(), old(Snapshot()).world, a)
    {
      if !worker.Running? {
        return;
      }
      match a
      case SetColour(c) =>
        var r := driver.SetColourRgb(c);
        if !r.Done? {
          worker := Crashed;
        }
      case SetBrightness(b) =>
        var r := driver.SetBrightness(b);
        if !r.Done? {
          worker := Crashed;
        }
      case SetEnable(on) =>
        var r := driver.SetEnable(on);
        if !r.Done? {
          worker := Crashed;
        }
      case Sleep(ns) =>
        slept := slept + [ns];
      case Underflow =>
        worker := Crashed;
    }

    /** The body of the worker loop for pattern `p`. */
    method RenderCycle(p: Pattern)
      requires Valid()
      modifies this, driver, driver.sysfs
      ensures Valid()
      ensures Snapshot() == old(Snapshot()).(world := ApplyAll(Hardware(), old(Snapshot()).world, Cycle(p)))
    {
      match p
      case Blink(period, colour) => RenderBlink(period, colour);
      case BlinkTwice(period, colour) => RenderBlinkTwice(period, colour);
      case BlinkBetweenColours(period, colour1, colour2) => RenderBlinkBetweenColours(period, colour1, colour2);
      case Breathe(period, colour) => RenderBreathe(period, colour);
    }

    method RenderBlink(period: Duration, colour: Colour)
      requires Valid()
      modifies this, driver, driver.sysfs
      ensures Valid()
      ensures pattern == old(pattern) && isRunning == old(isRunning) && stopFlag == old(stopFlag)
      ensures patternPoisoned == old(patternPoisoned)
      ensures Snapshot().world == ApplyAll(Hardware(), old(Snapshot()).world, Cycle(Blink(period, colour)))
    {
      ghost var w0 := Snapshot().world;
      Perform(SetColour(colour));
      ghost var w1 := Snapshot().world;
      Perform(SetBrightness(1.0));
      ghost var w2 := Snapshot().world;
      Perform(Sleep(period / 2));
      ghost var w3 := Snapshot().world;
      Perform(SetBrightness(0.0));
      ghost var w4 := Snapshot().world;
      Perform(Sleep(period / 2));
      ApplyAllSteps(Hardware(), Cycle(Blink(period, colour)), [w0, w1, w2, w3, w4, Snapshot().world]);
    }

    method RenderBlinkTwice(period: Duration, colour: Colour)
      requires Valid()
      modifies this, driver, driver.sysfs
      ensures Valid()
      ensures pattern == old(pattern) && isRunning == old(isRunning) && stopFlag == old(stopFlag)
      ensures patternPoisoned == old(patternPoisoned)
      ensures Snapshot().world == ApplyAll(Hardware(), old(Snapshot()).world, Cycle(BlinkTwice(period, colour)))
    {
      ghost var w0 := Snapshot().world;
      Perform(SetColour(colour));
      ghost var w1 := Snapshot().world;
      Perform(SetBrightness(1.0));
      ghost var w2 := Snapshot().world;
      Perform(Sleep(period / 8));
      ghost var w3 := Snapshot().world;
      Perform(SetBrightness(0.0));
      ghost var w4 := Snapshot().world;
      Perform(Sleep(period / 8));
      ghost var w5 := Snapshot().world;
      Perform(SetBrightness(1.0));
      ghost var w6 := Snapshot().world;
      Perform(Sleep(period / 8));
      ghost var w7 := Snapshot().world;
      Perform(SetBrightness(0.0));
      ghost var w8 := Snapshot().world;
      Perform(Sleep(period * 5 / 8));
      ApplyAllSteps(Hardware(), Cycle(BlinkTwice(period, colour)), [w0, w1, w2, w3, w4, w5, w6, w7, w8, Snapshot().world]);
    }

    method RenderBlinkBetweenColours(period: Duration, colour1: Colour, colour2: Colour)
      requires Valid()
      modifies this, driver, driver.sysfs
      ensures Valid()
      ensures pattern == old(pattern) && isRunning == old(isRunning) && stopFlag == old(stopFlag)
      ensures patternPoisoned == old(patternPoisoned)
      ensures Snapshot().world == ApplyAll(Hardware(), old(Snapshot()).world, Cycle(BlinkBetweenColours(period, colour1, colour2)))
    {
      ghost var w0 := Snapshot().world;
      Perform(SetColour(colour1));
      ghost var w1 := Snapshot().world;
      Perform(SetBrightness(1.0));
      ghost var w2 := Snapshot().world;
      Perform(Sleep(period / 2));
      ghost var w3 := Snapshot().world;
      Perform(SetColour(colour2));
      ghost var w4 := Snapshot().world;
      Perform(Sleep(period / 2));
      ApplyAllSteps(Hardware(), Cycle(BlinkBetweenColours(period, colour1, colour2)), [w0, w1, w2, w3, w4, Snapshot().world]);
    }

    /** Breathe: set the colour, then the rising and the falling loop; at
        0 ms, `P - 1` panics before the falling loop. */
    method RenderBreathe(period: Duration, colour: Colour)
      requires Valid()
      modifies this, driver, driver.sysfs
      ensures Valid()
      ensures pattern == old(pattern) && isRunning == old(isRunning) && stopFlag == old(stopFlag)
      ensures patternPoisoned == old(patternPoisoned)
      ensures Snapshot().world == ApplyAll(Hardware(), old(Snapshot()).world, Cycle(Breathe(period, colour)))
    {
      ghost var w0 := Snapshot().world;
      Perform(SetColour(colour));
      ghost var w1 := Snapshot().world;
      ApplyAllSteps(Hardware(), [SetColour(colour)], [w0, w1]);
      var millis := period / NanosPerMilli;
      RenderRising(millis);
      ApplyAllAppend(Hardware(), w0, [SetColour(colour)], Rising(millis));
      ghost var tail: seq<Action>;
      if millis == 0 {
        ghost var w2 := Snapshot().world;
        Perform(Underflow);
        tail := [Underflow];
        ApplyAllSteps(Hardware(), tail, [w2, Snapshot().world]);
      } else {
        RenderFalling(millis);
        tail := Falling(millis);
      }
      ApplyAllAppend(Hardware(), w0, [SetColour(colour)] + Rising(millis), tail);
    }

    /** `for i in 1..=P { set_brightness((i / P) as f32) }`. */
    method RenderRising(millis: nat)
      requires Valid()
      modifies this, driver, driver.sysfs
      ensures Valid()
      ensures pattern == old(pattern) && isRunning == old(isRunning) && stopFlag == old(stopFlag)
      ensures patternPoisoned == old(patternPoisoned)
      ensures Snapshot().world == ApplyAll(Hardware(), old(Snapshot()).world, Rising(millis))
    {
      ghost var w0 := Snapshot().world;
      for i := 1 to millis + 1
        invariant Valid() && Snapshot().world == ApplyAll(Hardware(), w0, Rising(millis)[..i - 1])
        invariant pattern == old(pattern) && isRunning == old(isRunning) && stopFlag == old(stopFlag)
        invariant patternPoisoned == old(patternPoisoned)
      {
        Perform(SetBrightness((i / millis) as real));
        ApplyAllSnoc(Hardware(), w0, Rising(millis)[..i - 1], SetBrightness((i / millis) as real));
        assert Rising(millis)[..i] == Rising(millis)[..i - 1] + [SetBrightness((i / millis) as real)];
      }
      assert Rising(millis)[..millis] == Rising(millis);
    }

    /** `for i in (0..P - 1).rev() { set_brightness((i / P) as f32) }`. */
    method RenderFalling(millis: nat)
      requires millis > 0
      requires Valid()
      modifies this, driver, driver.sysfs
      ensures Valid()
      ensures pattern == old(pattern) && isRunning == old(isRunning) && stopFlag == old(stopFlag)
      ensures patternPoisoned == old(patternPoisoned)
      ensures Snapshot().world == ApplyAll(Hardware(), old(Snapshot()).world, Falling(millis))
    {
      ghost var w0 := Snapshot().world;
      for i := millis - 1 downto 0
        invariant Valid() && Snapshot().world == ApplyAll(Hardware(), w0, Falling(millis)[..millis - 1 - i])
        invariant pattern == old(pattern) && isRunning == old(isRunning) && stopFlag == old(stopFlag)
        invariant patternPoisoned == old(patternPoisoned)
      {
        Perform(SetBrightness((i / millis) as real));
        ApplyAllSnoc(Hardware(), w0, Falling(millis)[..millis - 2 - i], SetBrightness((i / millis) as real));
        assert Falling(millis)[..millis - 1 - i] ==
          Falling(millis)[..millis - 2 - i] + [SetBrightness((i / millis) as real)];
      }
      assert Falling(millis)[..millis - 1] == Falling(millis);
    }

    /** One turn of the `while !stop_flag` loop. */
    method WorkerCycle()
      requires Valid()
      modifies this, driver, driver.sysfs
      ensures Valid() && Snapshot() == WorkerCycleSpec(Hardware(), old(Snapshot()))
    {
      if !worker.Running? {
        return;
      }
      if stopFlag {
        worker := Exited;
        return;
      }
      var current := pattern;
      ApplyAllWorker(Hardware(), Snapshot().world, Cycle(current));
      RenderCycle(current);
      if !worker.Running? {
        patternPoisoned := true;
      }
    }

    /** The worker loop, left alone for at most `maxCycles` turns: it ends
        early once the worker exits or panics. */
    method RunWorker(maxCycles: nat)
      requires Valid()
      modifies this, driver, driver.sysfs
      ensures Valid() && Snapshot() == RunCycles(Hardware(), old(Snapshot()), maxCycles)
    {
      ghost var h0 := Snapshot();
      var n := 0;
      while n < maxCycles && worker.Running?
        invariant n <= maxCycles
        invariant Valid() && Snapshot() == RunCycles(Hardware(), h0, n)
      {
        WorkerCycle();
        n := n + 1;
      }
      if n < maxCycles {
        RunCyclesHalted(Hardware(), h0, n, maxCycles);
      }
    }
  }
}
