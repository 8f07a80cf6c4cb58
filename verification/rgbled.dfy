/** The RGB LED driver (`src/rgbled.rs`).

    A `Colour` is an immutable RGB triple. An `RgbLed` owns three PWM handles,
    always in the order red, green, blue, a period in nanoseconds, and the
    current colour and brightness. Every change of colour or brightness is
    rendered as three duty-cycle writes, one per channel in channel order,
    each `floor(channel / 255 * brightness * period)` nanoseconds. Brightness
    and each duty fraction must lie in [0, 1]; any other value is rejected
    before a channel is touched.

    Rust's `f32` is modelled as `real` (exact arithmetic), and the cast
    `as u32` of a non-negative value as `Floor`. */
module RgbLedDriver {
  import opened SysfsPwm

  /** The period every channel is given at construction: 2 ms, that is 500 Hz. */
  const DefaultPeriodNs: nat := 2_000_000

  newtype u8 = x: int | 0 <= x < 256

  /** An RGB colour, one byte per channel; `Colour::new(r, g, b)` is the constructor `Colour(r, g, b)`. */
  datatype Colour = Colour(red: u8, green: u8, blue: u8)

  /** The colour a new driver starts with. */
  const Black := Colour(0, 0, 0)

  /** Channel `i` of a colour, in the fixed order red, green, blue. */
  function Channel(c: Colour, i: nat): u8
    requires i < 3
  {
    if i == 0 then c.red else if i == 1 then c.green else c.blue
  }

  /** The closed range `0.0..=1.0` that brightness and duty fractions must lie in. */
  predicate InUnit(x: real)
  {
    0.0 <= x <= 1.0
  }

  /** `Colour::to_percentages`: each channel as a fraction of full scale. The
      fractions are exactly three, in channel order, each in [0, 1], and
      scaling one back by 255 gives the channel's byte again. */
  function ToPercentages(c: Colour): (r: seq<real>)
    ensures |r| == 3
    ensures forall i :: 0 <= i < 3 ==> InUnit(r[i]) && r[i] * 255.0 == Channel(c, i) as real
  {
    [c.red as real / 255.0, c.green as real / 255.0, c.blue as real / 255.0]
  }

  /** Two fractions in [0, 1] multiply to a fraction in [0, 1]. */
  lemma UnitProduct(x: real, y: real)
    requires InUnit(x) && InUnit(y)
    ensures InUnit(x * y)
  {
    assert x * y <= x * 1.0 by {
      assert x * (1.0 - y) >= 0.0;
    }
  }

  /** A fraction in [0, 1] of a non-negative length is at most that length. */
  lemma UnitScale(f: real, p: real)
    requires InUnit(f) && 0.0 <= p
    ensures 0.0 <= f * p <= p
  {
    assert (1.0 - f) * p >= 0.0;
  }

  /** The duty cycle in whole nanoseconds for a fraction of a period: the
      product truncated toward zero, so never more than the period. */
  function DutyNs(fraction: real, periodNs: nat): (ns: nat)
    requires InUnit(fraction)
    ensures ns <= periodNs
    ensures ns as real <= fraction * periodNs as real < ns as real + 1.0
  {
    UnitScale(fraction, periodNs as real);
    (fraction * periodNs as real).Floor
  }

  /** The errors the driver raises itself; a failing channel call is a `HardwareFailure`. */
  datatype LedError =
    | BrightnessOutOfRange(brightness: real)
    | DutyCycleOutOfRange
    | NoSuchPwm(index: nat)

  /** `set_pwm_duty_cycle_percent(fraction, index)` as one step: the fraction
      is checked first, then the index, and only then is a call made. */
  function DutyStep(pwms: seq<Pwm>, periodNs: nat, fraction: real, index: nat): Step<LedError>
  {
    if !InUnit(fraction) then Reject(DutyCycleOutOfRange)
    else if index >= |pwms| then Reject(NoSuchPwm(index))
    else Do(Call(pwms[index], SetDutyCycleNs(DutyNs(fraction, periodNs))))
  }

  /** `set_colour_with_brightness(colour, brightness)`: the three channel
      fractions scaled by the brightness, written to channels 0, 1, 2. */
  function RenderPlan(pwms: seq<Pwm>, periodNs: nat, colour: Colour, brightness: real): seq<Step<LedError>>
  {
    seq(3, i requires 0 <= i < 3 => DutyStep(pwms, periodNs, Scaled(colour, brightness, i), i))
  }

  /** Channel `i`'s fraction of the colour, scaled by the brightness. */
  function Scaled(colour: Colour, brightness: real, i: nat): real
    requires i < 3
  {
    ToPercentages(colour)[i] * brightness
  }

  lemma RenderPlanAt(pwms: seq<Pwm>, periodNs: nat, colour: Colour, b: real, i: nat)
    requires i < 3
    ensures RenderPlan(pwms, periodNs, colour, b)[i] == DutyStep(pwms, periodNs, Scaled(colour, b, i), i)
  {
  }

  /** `set_brightness(b)`: a brightness outside [0, 1] is rejected before any
      call; otherwise the stored colour is rendered at the new brightness. */
  function BrightnessPlan(pwms: seq<Pwm>, periodNs: nat, colour: Colour, b: real): seq<Step<LedError>>
  {
    if InUnit(b) then RenderPlan(pwms, periodNs, colour, b)
    else [Reject(BrightnessOutOfRange(b))]
  }

  /** `set_enable` and `set_all_periods`: the same operation on each channel in turn. */
  function EnablePlan(pwms: seq<Pwm>, on: bool): seq<Step<LedError>>
  {
    EachPwm(pwms, Enable(on))
  }

  function PeriodPlan(pwms: seq<Pwm>, periodNs: nat): seq<Step<LedError>>
  {
    EachPwm(pwms, SetPeriodNs(periodNs))
  }

  /** `Drop for RgbLed`: disable every channel, then unexport every channel. */
  function DropPlan(pwms: seq<Pwm>): seq<Step<LedError>>
  {
    EnablePlan(pwms, false) + EachPwm(pwms, Unexport)
  }

  /** The six calls a successful `RgbLed::new` makes. */
  function NewCalls(pwms: seq<Pwm>): seq<Call>
    requires |pwms| == 3
  {
    [Call(pwms[0], Export), Call(pwms[1], Export), Call(pwms[2], Export),
     Call(pwms[0], SetPeriodNs(DefaultPeriodNs)), Call(pwms[1], SetPeriodNs(DefaultPeriodNs)),
     Call(pwms[2], SetPeriodNs(DefaultPeriodNs))]
  }

  /** How `RgbLed::new` ended: a driver, an error, or a panic in the `Drop`
      that runs on the half-built driver when setting the periods fails. */
  datatype NewVerdict = Constructed | ConstructionFailed(cause: Outcome<LedError>) | DropPanicked

  datatype NewTrace = NewTrace(issued: seq<Call>, verdict: NewVerdict)

  /** `RgbLed::new`: export red, green and blue, stopping at the first failure;
      then set every period. If a period fails, the driver value already
      exists, so returning the error drops it and runs its `Drop`. */
  function NewRun(fails: Oracle, log: seq<Call>, pwms: seq<Pwm>): NewTrace
  {
    var exports := Execute(fails, log, EachPwm<LedError>(pwms, Export));
    if !exports.outcome.Done? then NewTrace(exports.issued, ConstructionFailed(exports.outcome))
    else
      var rest := SetUpRun(fails, log + exports.issued, pwms);
      NewTrace(exports.issued + rest.issued, rest.verdict)
  }

  /** The part of `RgbLed::new` after the exports: set the periods, and on
      a failure drop the half-built driver. */
  function SetUpRun(fails: Oracle, log: seq<Call>, pwms: seq<Pwm>): NewTrace
  {
    var periods := Execute(fails, log, PeriodPlan(pwms, DefaultPeriodNs));
    if periods.outcome.Done? then NewTrace(periods.issued, Constructed)
    else
      var dropped := Execute(fails, log + periods.issued, DropPlan(pwms));
      NewTrace(periods.issued + dropped.issued,
               if dropped.outcome.Done? then ConstructionFailed(periods.outcome) else DropPanicked)
  }

  /** Rendering at a brightness in [0, 1] writes channels 0, 1, 2 in that
      order, each the floor of channel / 255 * brightness * period
      nanoseconds, which never exceeds the period; no validation rejects it. */
  lemma RenderWritesChannelsInOrder(pwms: seq<Pwm>, periodNs: nat, colour: Colour, b: real)
    requires |pwms| == 3 && InUnit(b)
    ensures var plan := RenderPlan(pwms, periodNs, colour, b);
      |plan| == 3 &&
      forall i :: 0 <= i < 3 ==>
        plan[i].Do? && plan[i].call.pwm == pwms[i] && plan[i].call.op.SetDutyCycleNs? &&
        plan[i].call.op.ns == ((Channel(colour, i) as real / 255.0 * b) * periodNs as real).Floor &&
        plan[i].call.op.ns <= periodNs
  {
    var plan := RenderPlan(pwms, periodNs, colour, b);
    var pct := ToPercentages(colour);
    forall i | 0 <= i < 3
      ensures plan[i].Do? && plan[i].call.pwm == pwms[i] && plan[i].call.op.SetDutyCycleNs? &&
        plan[i].call.op.ns == ((Channel(colour, i) as real / 255.0 * b) * periodNs as real).Floor &&
        plan[i].call.op.ns <= periodNs
    {
      RenderPlanAt(pwms, periodNs, colour, b, i);
      var f := pct[i];
      assert f == Channel(colour, i) as real / 255.0;
      UnitProduct(f, b);
    }
  }

  /** A render at a brightness in [0, 1] issues duty-cycle writes to a
      prefix of channels 0, 1, 2, and stops right after the first write that
      fails: it finishes exactly when all three writes succeed. */
  lemma RenderStopsAtFirstFailure(fails: Oracle, log: seq<Call>, pwms: seq<Pwm>, periodNs: nat, colour: Colour, b: real)
    requires |pwms| == 3 && InUnit(b)
    ensures var r := Execute(fails, log, RenderPlan(pwms, periodNs, colour, b)); var n := |r.issued|;
      !r.outcome.Rejected? && n <= 3 &&
      (forall i :: 0 <= i < n ==> r.issued[i].pwm == pwms[i] && r.issued[i].op.SetDutyCycleNs?) &&
      (r.outcome.Done? <==> n == 3 && AllSucceed(fails, log, r.issued)) &&
      (r.outcome.HardwareFailure? ==>
        n > 0 && AllSucceed(fails, log, r.issued[..n - 1]) && fails(log + r.issued[..n - 1], r.issued[n - 1]))
  {
    RenderWritesChannelsInOrder(pwms, periodNs, colour, b);
    CallsOnlyPlan(fails, log, RenderPlan(pwms, periodNs, colour, b));
    ExecuteCharacterised(fails, log, RenderPlan(pwms, periodNs, colour, b));
  }

  /** `set_enable`, `set_all_periods` and the unexport loop of `drop` apply
      one operation to channels 0, 1, 2 in order and stop right after the
      first failure: they finish exactly when all three calls succeed. */
  lemma EachPwmStopsAtFirstFailure(fails: Oracle, log: seq<Call>, pwms: seq<Pwm>, op: Op)
    requires |pwms| == 3
    ensures var r := Execute(fails, log, EachPwm<LedError>(pwms, op)); var n := |r.issued|;
      !r.outcome.Rejected? && n <= 3 &&
      (forall i :: 0 <= i < n ==> r.issued[i] == Call(pwms[i], op)) &&
      (r.outcome.Done? <==> n == 3 && AllSucceed(fails, log, r.issued)) &&
      (r.outcome.HardwareFailure? ==>
        n > 0 && AllSucceed(fails, log, r.issued[..n - 1]) && fails(log + r.issued[..n - 1], r.issued[n - 1]))
  {
    CallsOnlyPlan(fails, log, EachPwm<LedError>(pwms, op));
    ExecuteCharacterised(fails, log, EachPwm<LedError>(pwms, op));
  }

  /** `drop` disables all three channels before it unexports any: the calls
      it issues are a prefix of disable R, G, B then unexport R, G, B; an
      unexport is issued only once all three disables succeeded; and the
      drop finishes without panicking exactly when all six calls succeed. */
  lemma DropDisablesBeforeUnexporting(fails: Oracle, log: seq<Call>, pwms: seq<Pwm>)
    requires |pwms| == 3
    ensures var r := Execute(fails, log, DropPlan(pwms)); var n := |r.issued|;
      n <= 6 &&
      (forall i :: 0 <= i < n ==>
        r.issued[i] == if i < 3 then Call(pwms[i], Enable(false)) else Call(pwms[i - 3], Unexport)) &&
      (n > 3 ==> AllSucceed(fails, log, r.issued[..3])) &&
      (r.outcome.Done? <==> n == 6 && AllSucceed(fails, log, r.issued))
  {
    var plan := DropPlan(pwms);
    var disable := EachPwm<LedError>(pwms, Enable(false));
    var unexport := EachPwm<LedError>(pwms, Unexport);
    assert plan == disable + unexport;
    assert forall i :: 0 <= i < 6 ==>
      plan[i] == Do(if i < 3 then Call(pwms[i], Enable(false)) else Call(pwms[i - 3], Unexport));
    CallsOnlyPlan(fails, log, plan);
    ExecuteCharacterised(fails, log, plan);
    var r := Execute(fails, log, plan);
    var n := |r.issued|;
    if n > 3 {
      if r.outcome.Done? {
        AllSucceedPrefix(fails, log, r.issued, 3);
      } else {
        AllSucceedPrefix(fails, log, r.issued[..n - 1], 3);
        assert r.issued[..n - 1][..3] == r.issued[..3];
      }
    }
  }

  /** The period writes of `RgbLed::new`, R, G, B. */
  function PeriodCalls(pwms: seq<Pwm>): seq<Call>
    requires |pwms| == 3
  {
    NewCalls(pwms)[3..]
  }

  /** After the exports, `RgbLed::new` succeeds exactly when it issued the
      period writes of R, G, B and nothing else, and all three succeeded;
      a failed period write is followed by the drop. */
  lemma SetUpSucceedsExactlyOnCleanRun(fails: Oracle, log: seq<Call>, pwms: seq<Pwm>)
    requires |pwms| == 3
    ensures var t := SetUpRun(fails, log, pwms);
      t.verdict == Constructed <==> t.issued == PeriodCalls(pwms) && AllSucceed(fails, log, PeriodCalls(pwms))
    ensures var t := SetUpRun(fails, log, pwms);
      var periods := Execute(fails, log, PeriodPlan(pwms, DefaultPeriodNs));
      var dropped := Execute(fails, log + periods.issued, DropPlan(pwms));
      !periods.outcome.Done? ==>
        t.issued == periods.issued + dropped.issued &&
        (t.verdict == DropPanicked <==> !dropped.outcome.Done?) &&
        (dropped.outcome.Done? ==> t.verdict == ConstructionFailed(periods.outcome))
  {
    var calls := PeriodCalls(pwms);
    var periods := Execute(fails, log, PeriodPlan(pwms, DefaultPeriodNs));
    EachPwmStopsAtFirstFailure(fails, log, pwms, SetPeriodNs(DefaultPeriodNs));
    var m := |periods.issued|;
    if !periods.outcome.Done? {
      var dropped := Execute(fails, log + periods.issued, DropPlan(pwms));
      var issued := periods.issued + dropped.issued;
      if issued == calls {
        assert calls[..m - 1] == periods.issued[..m - 1];
        assert calls[m - 1] == periods.issued[m - 1];
        assert fails(log + calls[..m - 1], calls[m - 1]);
      }
    }
  }

  /** `RgbLed::new` succeeds exactly when it issued the exports of R, G, B
      followed by the period of R, G, B, in that order, and all of them
      succeeded. */
  lemma NewSucceedsExactlyOnCleanRun(fails: Oracle, log: seq<Call>, pwms: seq<Pwm>)
    requires |pwms| == 3
    ensures var t := NewRun(fails, log, pwms);
      t.verdict == Constructed <==> t.issued == NewCalls(pwms) && AllSucceed(fails, log, NewCalls(pwms))
  {
    var calls := NewCalls(pwms);
    var exports := Execute(fails, log, EachPwm<LedError>(pwms, Export));
    EachPwmStopsAtFirstFailure(fails, log, pwms, Export);
    assert calls == calls[..3] + PeriodCalls(pwms);
    if exports.outcome.Done? {
      assert exports.issued == calls[..3];
      var log1 := log + exports.issued;
      var rest := SetUpRun(fails, log1, pwms);
      SetUpSucceedsExactlyOnCleanRun(fails, log1, pwms);
      if rest.verdict == Constructed {
        AllSucceedAppend(fails, log, exports.issued, PeriodCalls(pwms));
      }
      if exports.issued + rest.issued == calls && AllSucceed(fails, log, calls) {
        AllSucceedSplit(fails, log, calls[..3], PeriodCalls(pwms));
      }
    }
  }

  /** A failing export ends `RgbLed::new` with nothing but a prefix of the
      exports of R, G, B issued. */
  lemma NewExportFailureIssuesOnlyExports(fails: Oracle, log: seq<Call>, pwms: seq<Pwm>)
    requires |pwms| == 3
    ensures var t := NewRun(fails, log, pwms);
      t.verdict.ConstructionFailed? && t.verdict.cause.HardwareFailure? && t.verdict.cause.call.op.Export? ==>
        0 < |t.issued| <= 3 && t.issued == NewCalls(pwms)[..|t.issued|]
  {
    var exports := Execute(fails, log, EachPwm<LedError>(pwms, Export));
    EachPwmStopsAtFirstFailure(fails, log, pwms, Export);
    ExecuteCharacterised(fails, log, EachPwm<LedError>(pwms, Export));
    if exports.outcome.Done? {
      var log1 := log + exports.issued;
      var periods := Execute(fails, log1, PeriodPlan(pwms, DefaultPeriodNs));
      CallsOnlyPlan(fails, log1, PeriodPlan(pwms, DefaultPeriodNs));
      ExecuteCharacterised(fails, log1, PeriodPlan(pwms, DefaultPeriodNs));
      if !periods.outcome.Done? && periods.outcome.HardwareFailure? {
        assert periods.outcome.call == periods.issued[|periods.issued| - 1];
      }
    }
  }

  /** What `RgbLed::new` leaves behind. */
  datatype Construction = Created(led: RgbLed) | Failed(cause: Outcome<LedError>) | Panicked

  /** The driver. `pwms` and `periodNs` never change after construction. */
  class RgbLed {
    const sysfs: Sysfs
    const pwms: seq<Pwm>
    const periodNs: nat
    var colour: Colour
    var brightness: real

    ghost predicate Valid()
      reads this
    {
      |pwms| == 3 && periodNs == DefaultPeriodNs && InUnit(brightness)
    }

    /** The struct literal inside `RgbLed::new`; it makes no call. */
    constructor Assemble(sysfs: Sysfs, pwms: seq<Pwm>)
      requires |pwms| == 3
      ensures Valid() && this.sysfs == sysfs && this.pwms == pwms
      ensures colour == Black && brightness == 1.0
    {
      this.sysfs := sysfs;
      this.pwms := pwms;
      periodNs := DefaultPeriodNs;
      colour := Black;
      brightness := 1.0;
    }

    /** `RgbLed::new(pwm_r, pwm_g, pwm_b)`. */
    static method New(sysfs: Sysfs, r: Pwm, g: Pwm, b: Pwm) returns (res: Construction)
      modifies sysfs
      ensures var t := NewRun(sysfs.fails, old(sysfs.log), [r, g, b]);
        sysfs.log == old(sysfs.log) + t.issued &&
        match res
        case Created(led) =>
          t.verdict == Constructed && fresh(led) && led.Valid() &&
          led.sysfs == sysfs && led.pwms == [r, g, b] && led.periodNs == DefaultPeriodNs &&
          led.colour == Black && led.brightness == 1.0
        case Failed(cause) => t.verdict == ConstructionFailed(cause)
        case Panicked => t.verdict == DropPanicked
    {
      var exported := ExportAll(sysfs, r, g, b);
      if !exported.Done? {
        return Failed(exported);
      }
      res := SetUp(sysfs, [r, g, b]);
    }

    /** The rest of `RgbLed::new`: build the struct and set the periods; on
        a failure, `rgbled` goes out of scope on the early return, so it is
        dropped. */
    static method SetUp(sysfs: Sysfs, pwms: seq<Pwm>) returns (res: Construction)
      requires |pwms| == 3
      modifies sysfs
      ensures var t := SetUpRun(sysfs.fails, old(sysfs.log), pwms);
        sysfs.log == old(sysfs.log) + t.issued &&
        match res
        case Created(led) =>
          t.verdict == Constructed && fresh(led) && led.Valid() &&
          led.sysfs == sysfs && led.pwms == pwms && led.periodNs == DefaultPeriodNs &&
          led.colour == Black && led.brightness == 1.0
        case Failed(cause) => t.verdict == ConstructionFailed(cause)
        case Panicked => t.verdict == DropPanicked
    {
      var led := new RgbLed.Assemble(sysfs, pwms);
      var periods := led.SetAllPeriods(DefaultPeriodNs);
      if !periods.Done? {
        var panicked := led.Drop();
        if panicked {
          return Panicked;
        }
        return Failed(periods);
      }
      return Created(led);
    }

    /** The three `export()?` calls at the start of `RgbLed::new`. */
    static method ExportAll(sysfs: Sysfs, r: Pwm, g: Pwm, b: Pwm) returns (o: Outcome<LedError>)
      modifies sysfs
      ensures var run := Execute(sysfs.fails, old(sysfs.log), EachPwm<LedError>([r, g, b], Export));
        sysfs.log == old(sysfs.log) + run.issued && o == run.outcome
    {
      ghost var log0 := sysfs.log;
      ghost var exports := EachPwm<LedError>([r, g, b], Export);
      var ok := sysfs.Issue(Call(r, Export));
      assert exports[..0] == [] && log0 + [] == log0;
      ExecuteStep(sysfs.fails, log0, exports, 0);
      if !ok {
        return HardwareFailure(Call(r, Export));
      }
      assert sysfs.log == log0 + Execute(sysfs.fails, log0, exports[..1]).issued;
      ok := sysfs.Issue(Call(g, Export));
      ExecuteStep(sysfs.fails, log0, exports, 1);
      if !ok {
        return HardwareFailure(Call(g, Export));
      }
      assert sysfs.log == log0 + Execute(sysfs.fails, log0, exports[..2]).issued;
      ok := sysfs.Issue(Call(b, Export));
      ExecuteStep(sysfs.fails, log0, exports, 2);
      if !ok {
        return HardwareFailure(Call(b, Export));
      }
      assert sysfs.log == log0 + Execute(sysfs.fails, log0, exports[..3]).issued;
      assert exports[..3] == exports;
      return Done;
    }

    /** `set_colour_rgb`: the colour is stored before any write, so it is
        kept even when a write fails. */
    method SetColourRgb(c: Colour) returns (r: Outcome<LedError>)
      requires Valid()
      modifies this, sysfs
      ensures Valid() && colour == c && brightness == old(brightness)
      ensures var run := Execute(sysfs.fails, old(sysfs.log), RenderPlan(pwms, periodNs, c, old(brightness)));
        sysfs.log == old(sysfs.log) + run.issued && r == run.outcome
    {
      colour := c;
      r := SetColourWithBrightness(c, brightness);
    }

    /** `set_enable`: enable or disable channels 0, 1, 2, stopping at the first failure. */
    method SetEnable(on: bool) returns (r: Outcome<LedError>)
      requires Valid()
      modifies sysfs
      ensures var run := Execute(sysfs.fails, old(sysfs.log), EnablePlan(pwms, on));
        sysfs.log == old(sysfs.log) + run.issued && r == run.outcome
    {
      r := TryForEach(Enable(on));
    }

    /** `set_brightness`: a value outside [0, 1] is rejected and nothing
        changes; otherwise it is stored and the stored colour re-rendered. */
    method SetBrightness(b: real) returns (r: Outcome<LedError>)
      requires Valid()
      modifies this, sysfs
      ensures Valid() && colour == old(colour)
      ensures !InUnit(b) ==>
        brightness == old(brightness) && sysfs.log == old(sysfs.log) && r == Rejected(BrightnessOutOfRange(b))
      ensures InUnit(b) ==> brightness == b
      ensures var run := Execute(sysfs.fails, old(sysfs.log), BrightnessPlan(pwms, periodNs, old(colour), b));
        sysfs.log == old(sysfs.log) + run.issued && r == run.outcome
    {
      if !InUnit(b) {
        return Rejected(BrightnessOutOfRange(b));
      }
      brightness := b;
      r := SetColourWithBrightness(colour, brightness);
    }

    /** `set_colour_with_brightness`: scale the colour's fractions by the
        brightness, then write channels 0, 1, 2 in order, stopping at the
        first error. */
    method SetColourWithBrightness(c: Colour, b: real) returns (r: Outcome<LedError>)
      requires Valid()
      modifies sysfs
      ensures var run := Execute(sysfs.fails, old(sysfs.log), RenderPlan(pwms, periodNs, c, b));
        sysfs.log == old(sysfs.log) + run.issued && r == run.outcome
    {
      var dutyCycles := ToPercentages(c);
      dutyCycles := ScaleAll(dutyCycles, b);
      ghost var plan := RenderPlan(pwms, periodNs, c, b);
      assert forall k :: 0 <= k < 3 ==> dutyCycles[k] == Scaled(c, b, k);
      for index := 0 to 3
        invariant var run := Execute(sysfs.fails, old(sysfs.log), plan[..index]);
          sysfs.log == old(sysfs.log) + run.issued && run.outcome.Done?
      {
        ExecuteStep(sysfs.fails, old(sysfs.log), plan, index);
        var fraction := dutyCycles[index];
        RenderPlanAt(pwms, periodNs, c, b, index);
        r := SetPwmDutyCyclePercent(fraction, index);
        if !r.Done? {
          return;
        }
      }
      assert plan[..3] == plan;
      r := Done;
    }

    /** `duty_cycles.iter_mut().for_each(|ds| *ds *= brightness)`: every
        fraction multiplied by the brightness, in place. */
    static method ScaleAll(fractions: seq<real>, b: real) returns (scaled: seq<real>)
      ensures |scaled| == |fractions|
      ensures forall k :: 0 <= k < |fractions| ==> scaled[k] == fractions[k] * b
    {
      scaled := fractions;
      for i := 0 to |fractions|
        invariant |scaled| == |fractions|
        invariant forall k :: 0 <= k < i ==> scaled[k] == fractions[k] * b
        invariant forall k :: i <= k < |fractions| ==> scaled[k] == fractions[k]
      {
        scaled := scaled[i := scaled[i] * b];
      }
    }

    /** `set_all_periods`: the same period on channels 0, 1, 2, stopping at the first failure. */
    method SetAllPeriods(p: nat) returns (r: Outcome<LedError>)
      requires Valid()
      modifies sysfs
      ensures var run := Execute(sysfs.fails, old(sysfs.log), PeriodPlan(pwms, p));
        sysfs.log == old(sysfs.log) + run.issued && r == run.outcome
    {
      r := TryForEach(SetPeriodNs(p));
    }

    /** `set_pwm_duty_cycle_percent`: reject a fraction outside [0, 1], then
        an index past the last channel, without a call; otherwise write the
        truncated duty cycle to that channel. */
    method SetPwmDutyCyclePercent(fraction: real, index: nat) returns (r: Outcome<LedError>)
      requires Valid()
      modifies sysfs
      ensures !InUnit(fraction) || index >= 3 ==> sysfs.log == old(sysfs.log) && r.Rejected?
      ensures var run := Execute(sysfs.fails, old(sysfs.log), [DutyStep(pwms, periodNs, fraction, index)]);
        sysfs.log == old(sysfs.log) + run.issued && r == run.outcome
    {
      if !InUnit(fraction) {
        return Rejected(DutyCycleOutOfRange);
      }
      if index >= |pwms| {
        return Rejected(NoSuchPwm(index));
      }
      var ns := DutyNs(fraction, periodNs);
      var ok := sysfs.Issue(Call(pwms[index], SetDutyCycleNs(ns)));
      r := if ok then Done else HardwareFailure(Call(pwms[index], SetDutyCycleNs(ns)));
      ghost var step: seq<Step<LedError>> := [Do(Call(pwms[index], SetDutyCycleNs(ns)))];
      assert step[1..] == [];
    }

    /** `Drop for RgbLed`: disable all channels, then unexport them; the first
        failure panics (`unwrap`), which ends the drop there. */
    method Drop() returns (panicked: bool)
      requires Valid()
      modifies sysfs
      ensures var run := Execute(sysfs.fails, old(sysfs.log), DropPlan(pwms));
        sysfs.log == old(sysfs.log) + run.issued && panicked == !run.outcome.Done?
    {
      var disabled := SetEnable(false);
      ExecuteAppend(sysfs.fails, old(sysfs.log), EnablePlan(pwms, false), EachPwm(pwms, Unexport));
      if !disabled.Done? {
        return true;
      }
      var unexported := TryForEach(Unexport);
      panicked := !unexported.Done?;
    }

    /** The `try_for_each` over the three handles of `set_enable` and
        `set_all_periods`. It also serves the `for_each(|pwm| pwm.unexport().unwrap())`
        loop of `drop`: there the `unwrap` panics at the first failure, which
        ends the drop at the same call. */
    method TryForEach(op: Op) returns (r: Outcome<LedError>)
      requires Valid()
      modifies sysfs
      ensures var run := Execute(sysfs.fails, old(sysfs.log), EachPwm<LedError>(pwms, op));
        sysfs.log == old(sysfs.log) + run.issued && r == run.outcome
    {
      ghost var plan := EachPwm<LedError>(pwms, op);
      for i := 0 to 3
        invariant var run := Execute(sysfs.fails, old(sysfs.log), plan[..i]);
          sysfs.log == old(sysfs.log) + run.issued && run.outcome.Done?
      {
        ExecuteStep(sysfs.fails, old(sysfs.log), plan, i);
        var ok := sysfs.Issue(Call(pwms[i], op));
        if !ok {
          return HardwareFailure(Call(pwms[i], op));
        }
      }
      assert plan[..3] == plan;
      r := Done;
    }
  }
}
