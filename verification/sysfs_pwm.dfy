/** The PWM outputs the LED driver talks to, seen from outside.

    A `Pwm` is a handle on one output of one PWM chip. Every operation on it
    (export, unexport, enable, set period, set duty cycle) is a write into the
    kernel's sysfs tree, which may fail. Here all those writes go to one
    `Sysfs` object that keeps the ordered log of every call attempted, across
    all three outputs, and asks a failure oracle whether each call fails.

    The module also gives the meaning of a sequence of calls joined with
    Rust's `?`: the calls are issued in order and the first failing one ends
    the sequence. A `Step` is either a call or a validation that rejects
    before any call is made; `Execute` runs a plan of steps. */
module SysfsPwm {

  /** A handle on PWM output `number` of PWM chip `chip`. */
  datatype Pwm = Pwm(chip: nat, number: nat)

  /** The operations a handle offers. Periods and duty cycles are in nanoseconds. */
  datatype Op =
    | Export
    | Unexport
    | Enable(on: bool)
    | SetPeriodNs(ns: nat)
    | SetDutyCycleNs(ns: nat)

  datatype Call = Call(pwm: Pwm, op: Op)

  /** Whether `call` fails, given every call attempted before it. */
  type Oracle = (seq<Call>, Call) -> bool

  /** The sysfs tree: the log of calls attempted so far and the oracle that decides their fate. */
  class Sysfs {
    const fails: Oracle
    var log: seq<Call>

    constructor (fails: Oracle)
      ensures this.fails == fails && log == []
    {
      this.fails := fails;
      log := [];
    }

    /** Attempts `call`: it is logged whether or not it succeeds. */
    method Issue(call: Call) returns (ok: bool)
      modifies this`log
      ensures log == old(log) + [call]
      ensures ok == !fails(old(log), call)
    {
      ok := !fails(log, call);
      log := log + [call];
    }
  }

  /** One step of a plan: a call to issue, or a validation failure raised before any call. */
  datatype Step<E> = Do(call: Call) | Reject(error: E)

  /** How a plan ended: every step done, a call failed, or a validation rejected. */
  datatype Outcome<E> = Done | HardwareFailure(call: Call) | Rejected(error: E)

  /** The calls a plan actually issued, and how it ended. */
  datatype Run<E> = Run(issued: seq<Call>, outcome: Outcome<E>)

  /** Runs `plan` against a sysfs whose log is `log`, stopping at the first
      failing call or rejecting step. */
  function Execute<E>(fails: Oracle, log: seq<Call>, plan: seq<Step<E>>): Run<E>
    decreases |plan|
  {
    if plan == [] then Run([], Done)
    else match plan[0]
      case Reject(e) => Run([], Rejected(e))
      case Do(c) =>
        if fails(log, c) then Run([c], HardwareFailure(c))
        else
          var rest := Execute(fails, log + [c], plan[1..]);
          Run([c] + rest.issued, rest.outcome)
  }

  /** Every call in `calls`, issued one after another after `log`, succeeds. */
  predicate AllSucceed(fails: Oracle, log: seq<Call>, calls: seq<Call>)
  {
    forall i :: 0 <= i < |calls| ==> !fails(log + calls[..i], calls[i])
  }

  /** A plan that applies `op` to each handle in turn. Its ensures only
      unfold the definition element by element, for the proofs that use it. */
  function EachPwm<E>(pwms: seq<Pwm>, op: Op): (plan: seq<Step<E>>)
    ensures |plan| == |pwms|
    ensures forall i :: 0 <= i < |pwms| ==> plan[i] == Do(Call(pwms[i], op))
  {
    seq(|pwms|, i requires 0 <= i < |pwms| => Do(Call(pwms[i], op)))
  }

  /** Running two plans back to back is running the first and, only if it
      finished, the second after it. */
  lemma {:induction false} ExecuteAppend<E>(fails: Oracle, log: seq<Call>, p: seq<Step<E>>, q: seq<Step<E>>)
    ensures Execute(fails, log, p + q) ==
      var r := Execute(fails, log, p);
      if r.outcome.Done? then
        var s := Execute(fails, log + r.issued, q);
        Run(r.issued + s.issued, s.outcome)
      else r
    decreases |p|
  {
    if p == [] {
      assert p + q == q;
      assert log + [] == log;
    } else {
      assert (p + q)[0] == p[0];
      assert (p + q)[1..] == p[1..] + q;
      match p[0]
      case Reject(e) =>
      case Do(c) =>
        if !fails(log, c) {
          ExecuteAppend(fails, log + [c], p[1..], q);
          var r1 := Execute(fails, log + [c], p[1..]);
          assert log + [c] + r1.issued == log + ([c] + r1.issued);
        }
    }
  }

  /** Running a plan one step longer: what the last step adds. */
  lemma ExecuteSnoc<E>(fails: Oracle, log: seq<Call>, plan: seq<Step<E>>, k: nat)
    requires k < |plan|
    requires Execute(fails, log, plan[..k]).outcome.Done?
    ensures Execute(fails, log, plan[..k + 1]) ==
      var r := Execute(fails, log, plan[..k]);
      var s := Execute(fails, log + r.issued, [plan[k]]);
      Run(r.issued + s.issued, s.outcome)
  {
    assert plan[..k + 1] == plan[..k] + [plan[k]];
    ExecuteAppend(fails, log, plan[..k], [plan[k]]);
  }

  /** One more step of a plan whose first `k` steps all finished: a call
      that succeeds extends the run; a failing call or a rejection ends it,
      and the rest of the plan is never reached. */
  lemma ExecuteStep<E>(fails: Oracle, log: seq<Call>, plan: seq<Step<E>>, k: nat)
    requires k < |plan|
    requires Execute(fails, log, plan[..k]).outcome.Done?
    ensures var r := Execute(fails, log, plan[..k]);
      match plan[k]
      case Do(c) =>
        if fails(log + r.issued, c) then
          Execute(fails, log, plan) == Run(r.issued + [c], HardwareFailure(c))
        else
          Execute(fails, log, plan[..k + 1]) == Run(r.issued + [c], Done)
      case Reject(e) =>
        Execute(fails, log, plan) == Run(r.issued, Rejected(e))
  {
    var r := Execute(fails, log, plan[..k]);
    ExecuteSnoc(fails, log, plan, k);
    assert [plan[k]][1..] == [];
    assert log + r.issued + [] == log + r.issued;
    assert plan == plan[..k + 1] + plan[k + 1..];
    ExecuteAppend(fails, log, plan[..k + 1], plan[k + 1..]);
  }

  /** A prefix of calls that all succeed also all succeed. */
  lemma AllSucceedPrefix(fails: Oracle, log: seq<Call>, calls: seq<Call>, k: nat)
    requires k <= |calls|
    requires AllSucceed(fails, log, calls)
    ensures AllSucceed(fails, log, calls[..k])
  {
    forall i | 0 <= i < k
      ensures !fails(log + calls[..k][..i], calls[..k][i])
    {
      assert calls[..k][..i] == calls[..i];
    }
  }

  /** The calls a run issued are the plan's first steps, in order. */
  lemma {:induction false} ExecuteIssuesPlanPrefix<E>(fails: Oracle, log: seq<Call>, plan: seq<Step<E>>)
    ensures var r := Execute(fails, log, plan);
      |r.issued| <= |plan| &&
      forall i :: 0 <= i < |r.issued| ==> plan[i] == Do(r.issued[i])
    decreases |plan|
  {
    if plan != [] && plan[0].Do? && !fails(log, plan[0].call) {
      ExecuteIssuesPlanPrefix(fails, log + [plan[0].call], plan[1..]);
    }
  }

  /** A run that did not fail issued every call of its plan, all successfully. */
  lemma {:induction false} ExecuteDone<E>(fails: Oracle, log: seq<Call>, plan: seq<Step<E>>)
    requires Execute(fails, log, plan).outcome.Done?
    ensures |Execute(fails, log, plan).issued| == |plan|
    ensures AllSucceed(fails, log, Execute(fails, log, plan).issued)
    decreases |plan|
  {
    if plan != [] {
      var c := plan[0].call;
      ExecuteDone(fails, log + [c], plan[1..]);
      AllSucceedCons(fails, log, c, Execute(fails, log + [c], plan[1..]).issued);
    }
  }

  /** A run that hit a failing call stopped right after it: that call is the
      last one issued, and every call before it succeeded. */
  lemma {:induction false} ExecuteFailed<E>(fails: Oracle, log: seq<Call>, plan: seq<Step<E>>)
    requires Execute(fails, log, plan).outcome.HardwareFailure?
    ensures var r := Execute(fails, log, plan); var n := |r.issued|;
      n > 0 && r.outcome.call == r.issued[n - 1] &&
      AllSucceed(fails, log, r.issued[..n - 1]) &&
      fails(log + r.issued[..n - 1], r.issued[n - 1])
    decreases |plan|
  {
    var c := plan[0].call;
    if !fails(log, c) {
      var rest := Execute(fails, log + [c], plan[1..]);
      ExecuteFailed(fails, log + [c], plan[1..]);
      var r := Execute(fails, log, plan);
      var m := |rest.issued|;
      assert r.issued[..m] == [c] + rest.issued[..m - 1];
      AllSucceedCons(fails, log, c, rest.issued[..m - 1]);
      assert log + r.issued[..m] == (log + [c]) + rest.issued[..m - 1];
    } else {
      assert log + [] == log;
    }
  }

  /** A run that a validation rejected issued no call after the rejecting
      step, and every call before it succeeded. */
  lemma {:induction false} ExecuteRejected<E>(fails: Oracle, log: seq<Call>, plan: seq<Step<E>>)
    requires Execute(fails, log, plan).outcome.Rejected?
    ensures var r := Execute(fails, log, plan);
      |r.issued| < |plan| && plan[|r.issued|] == Reject(r.outcome.error) &&
      AllSucceed(fails, log, r.issued)
    decreases |plan|
  {
    if plan[0].Do? {
      var c := plan[0].call;
      ExecuteRejected(fails, log + [c], plan[1..]);
      AllSucceedCons(fails, log, c, Execute(fails, log + [c], plan[1..]).issued);
    }
  }

  /** What `Execute` does, in full: the run ended for exactly one of three
      reasons, each with what it implies about the calls issued. */
  lemma ExecuteCharacterised<E>(fails: Oracle, log: seq<Call>, plan: seq<Step<E>>)
    ensures var r := Execute(fails, log, plan); var n := |r.issued|;
      n <= |plan| &&
      (forall i :: 0 <= i < n ==> plan[i] == Do(r.issued[i])) &&
      (r.outcome.Done? ==> n == |plan| && AllSucceed(fails, log, r.issued)) &&
      (r.outcome.HardwareFailure? ==>
        n > 0 && r.outcome.call == r.issued[n - 1] &&
        AllSucceed(fails, log, r.issued[..n - 1]) &&
        fails(log + r.issued[..n - 1], r.issued[n - 1])) &&
      (r.outcome.Rejected? ==>
        n < |plan| && plan[n] == Reject(r.outcome.error) && AllSucceed(fails, log, r.issued))
  {
    ExecuteIssuesPlanPrefix(fails, log, plan);
    var r := Execute(fails, log, plan);
    if r.outcome.Done? {
      ExecuteDone(fails, log, plan);
    } else if r.outcome.HardwareFailure? {
      ExecuteFailed(fails, log, plan);
    } else {
      ExecuteRejected(fails, log, plan);
    }
  }

  /** A plan made only of calls is never rejected; it issues its calls in
      order, and it finishes exactly when all of them are issued and succeed. */
  lemma CallsOnlyPlan<E>(fails: Oracle, log: seq<Call>, plan: seq<Step<E>>)
    requires forall i :: 0 <= i < |plan| ==> plan[i].Do?
    ensures var r := Execute(fails, log, plan);
      !r.outcome.Rejected? && |r.issued| <= |plan| &&
      (forall i :: 0 <= i < |r.issued| ==> r.issued[i] == plan[i].call) &&
      (r.outcome.Done? <==> |r.issued| == |plan| && AllSucceed(fails, log, r.issued))
  {
    ExecuteCharacterised(fails, log, plan);
  }

  /** A call that succeeds followed by calls that all succeed after it. */
  lemma AllSucceedCons(fails: Oracle, log: seq<Call>, c: Call, rest: seq<Call>)
    requires !fails(log, c)
    requires AllSucceed(fails, log + [c], rest)
    ensures AllSucceed(fails, log, [c] + rest)
  {
    var calls := [c] + rest;
    forall i | 0 <= i < |calls|
      ensures !fails(log + calls[..i], calls[i])
    {
      if i == 0 {
        assert log + calls[..0] == log;
      } else {
        assert calls[..i] == [c] + rest[..i - 1];
        assert log + calls[..i] == (log + [c]) + rest[..i - 1];
        assert calls[i] == rest[i - 1];
        assert !fails((log + [c]) + rest[..i - 1], rest[i - 1]);
      }
    }
  }

  /** Calls that all succeed, followed by calls that all succeed after them, all succeed. */
  lemma AllSucceedAppend(fails: Oracle, log: seq<Call>, a: seq<Call>, b: seq<Call>)
    requires AllSucceed(fails, log, a)
    requires AllSucceed(fails, log + a, b)
    ensures AllSucceed(fails, log, a + b)
  {
    var ab := a + b;
    forall i | 0 <= i < |ab|
      ensures !fails(log + ab[..i], ab[i])
    {
      if i < |a| {
        assert ab[..i] == a[..i];
      } else {
        assert ab[..i] == a + b[..i - |a|];
        assert log + ab[..i] == (log + a) + b[..i - |a|];
        assert ab[i] == b[i - |a|];
      }
    }
  }

  /** The converse of `AllSucceedAppend`. */
  lemma AllSucceedSplit(fails: Oracle, log: seq<Call>, a: seq<Call>, b: seq<Call>)
    requires AllSucceed(fails, log, a + b)
    ensures AllSucceed(fails, log, a)
    ensures AllSucceed(fails, log + a, b)
  {
    var ab := a + b;
    AllSucceedPrefix(fails, log, ab, |a|);
    assert ab[..|a|] == a;
    forall i | 0 <= i < |b|
      ensures !fails(log + a + b[..i], b[i])
    {
      assert ab[..|a| + i] == a + b[..i];
      assert ab[|a| + i] == b[i];
      assert !fails(log + ab[..|a| + i], ab[|a| + i]);
      assert log + ab[..|a| + i] == log + a + b[..i];
    }
  }

  /** An oracle under which no call ever fails. */
  ghost predicate NeverFails(fails: Oracle)
  {
    forall log, c :: !fails(log, c)
  }

  /** Without hardware failures, a plan made only of calls issues all of them and finishes. */
  lemma {:induction false} ExecuteWithoutFailures<E>(fails: Oracle, log: seq<Call>, plan: seq<Step<E>>)
    requires NeverFails(fails)
    requires forall i :: 0 <= i < |plan| ==> plan[i].Do?
    ensures Execute(fails, log, plan).outcome == Done
    ensures |Execute(fails, log, plan).issued| == |plan|
    decreases |plan|
  {
    if plan != [] {
      var c := plan[0].call;
      assert !fails(log, c);
      ExecuteWithoutFailures(fails, log + [c], plan[1..]);
    }
  }
}
