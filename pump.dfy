/** The pump-actuation discipline shared by the `/api/pump` route and the
    autonomous pass (main.py:270-274 and main.py:410-414): take the plant's
    lock, drive the motor at full effort, wait, drive it at zero effort,
    release the lock.  The lock is a flag, the wait an opaque step that
    either completes or raises, and every step is recorded as an Event. */
module Pump {
  import opened Floats

  /** One hardware-visible step of an actuation. */
  datatype Event = Acquire | SetEffort(effort: real) | Wait(secs: Float) | Release

  /** One pump at one instant: is its lock held, what effort its motor is driven at. */
  datatype State = State(locked: bool, effort: real)

  /** Lock free, motor stopped: the state at start-up and between actuations. */
  const Idle := State(false, 0.0)

  function Next(s: State, e: Event): State {
    match e
    case Acquire => s.(locked := true)
    case SetEffort(x) => s.(effort := x)
    case Wait(_) => s
    case Release => s.(locked := false)
  }

  /** The state reached from `s` by performing `events` in order. */
  function Replay(s: State, events: seq<Event>): State
    decreases |events|
  {
    if events == [] then s
    else Next(Replay(s, events[..|events| - 1]), events[|events| - 1])
  }

  /** The motor is driven only while its lock is held. */
  predicate Guarded(s: State) {
    s.effort != 0.0 ==> s.locked
  }

  /** Every intermediate state of `events`, performed from `s`, is Guarded. */
  ghost predicate SafeRun(s: State, events: seq<Event>) {
    forall k :: 0 <= k <= |events| ==> Guarded(Replay(s, events[..k]))
  }

  /** The steps of one actuation for `secs` seconds, as the model performs
      them: the motor is set back to zero effort whether or not the wait
      completes, and only then is the lock released. */
  function Actuation(secs: Float): seq<Event> {
    if WaitAccepts(secs) then [Acquire, SetEffort(1.0), Wait(secs), SetEffort(0.0), Release]
    else [Acquire, SetEffort(1.0), SetEffort(0.0), Release]
  }

  /** An actuation takes the lock, starts the motor, stops it and releases
      the lock, waiting in between exactly when the wait completes. */
  lemma ActuationShape(secs: Float)
    ensures var r := Actuation(secs);
            |r| >= 4 && r[0] == Acquire && r[1] == SetEffort(1.0) &&
            r[|r| - 2] == SetEffort(0.0) && r[|r| - 1] == Release
    ensures Wait(secs) in Actuation(secs) <==> WaitAccepts(secs)
  {
  }

  /** The steps of one actuation as main.py:270-274 and main.py:410-414 are
      written: nothing stops the motor when the wait raises, and leaving the
      `async with` block releases the lock all the same. */
  function ActuationAsWritten(secs: Float): seq<Event> {
    if WaitAccepts(secs) then [Acquire, SetEffort(1.0), Wait(secs), SetEffort(0.0), Release]
    else [Acquire, SetEffort(1.0), Release]
  }

  /** As written, the motor is stopped exactly when the wait completes;
      the lock is released either way. */
  lemma ActuationAsWrittenShape(secs: Float)
    ensures var r := ActuationAsWritten(secs);
            |r| >= 3 && r[0] == Acquire && r[1] == SetEffort(1.0) && r[|r| - 1] == Release
    ensures SetEffort(0.0) in ActuationAsWritten(secs) <==> WaitAccepts(secs)
    ensures Wait(secs) in ActuationAsWritten(secs) <==> WaitAccepts(secs)
  {
  }

  lemma {:induction false} ReplayAppend(s: State, xs: seq<Event>, ys: seq<Event>)
    ensures Replay(s, xs + ys) == Replay(Replay(s, xs), ys)
    decreases |ys|
  {
    if ys == [] {
      assert xs + ys == xs;
    } else {
      var init := ys[..|ys| - 1];
      assert (xs + ys)[..|xs + ys| - 1] == xs + init;
      ReplayAppend(s, xs, init);
    }
  }

  /** Safe runs compose. */
  lemma SafeRunAppend(s: State, xs: seq<Event>, ys: seq<Event>)
    requires SafeRun(s, xs) && SafeRun(Replay(s, xs), ys)
    ensures SafeRun(s, xs + ys)
  {
    forall k | 0 <= k <= |xs + ys|
      ensures Guarded(Replay(s, (xs + ys)[..k]))
    {
      if k <= |xs| {
        assert (xs + ys)[..k] == xs[..k];
      } else {
        assert (xs + ys)[..k] == xs + ys[..k - |xs|];
        ReplayAppend(s, xs, ys[..k - |xs|]);
      }
    }
  }

  lemma ReplayPrefixStep(s: State, xs: seq<Event>, k: nat)
    requires k < |xs|
    ensures Replay(s, xs[..k + 1]) == Next(Replay(s, xs[..k]), xs[k])
  {
    assert xs[..k + 1][..k] == xs[..k];
  }

  /** An actuation started with the pump idle drives the motor only under
      the lock, runs it at full effort exactly while it waits, and leaves the
      lock free and the motor stopped, whether or not the wait completes. */
  lemma ActuationIsSafe(secs: Float)
    ensures SafeRun(Idle, Actuation(secs))
    ensures Replay(Idle, Actuation(secs)) == Idle
    ensures WaitAccepts(secs) ==>
              Actuation(secs)[2] == Wait(secs) && Replay(Idle, Actuation(secs)[..2]) == State(true, 1.0)
  {
    var a := Actuation(secs);
    var states := if WaitAccepts(secs)
      then [Idle, State(true, 0.0), State(true, 1.0), State(true, 1.0), State(true, 0.0), Idle]
      else [Idle, State(true, 0.0), State(true, 1.0), State(true, 0.0), Idle];
    assert |states| == |a| + 1;
    assert a[..0] == [];
    for k := 0 to |a|
      invariant forall j :: 0 <= j <= k ==> Replay(Idle, a[..j]) == states[j]
    {
      ReplayPrefixStep(Idle, a, k);
    }
    assert a[..|a|] == a;
  }

  /** The actuation as written: when the wait raises, the lock is released
      while the motor is still at full effort, and stays so. */
  lemma ActuationAsWrittenLeavesMotorRunning(secs: Float)
    requires !WaitAccepts(secs)
    ensures Replay(Idle, ActuationAsWritten(secs)) == State(false, 1.0)
    ensures !Guarded(Replay(Idle, ActuationAsWritten(secs)))
    ensures !SafeRun(Idle, ActuationAsWritten(secs))
  {
    var a := ActuationAsWritten(secs);
    assert a[..3] == a;
    assert a[..3][..2] == a[..2];
    assert a[..2][..1] == a[..1];
  }

  /** A concrete case: `POST /api/pump/0/nan`, where `float('nan')` passes
      the `secs <= 0` guard. */
  lemma NaNActuationLeavesMotorRunning()
    ensures !AtMostZero(NaN)
    ensures Replay(Idle, ActuationAsWritten(NaN)) == State(false, 1.0)
  {
    ActuationAsWrittenLeavesMotorRunning(NaN);
  }

  /** The as-written and the model's actuation differ only when the wait raises. */
  lemma ActuationAgreesWhenWaitCompletes(secs: Float)
    requires WaitAccepts(secs)
    ensures ActuationAsWritten(secs) == Actuation(secs)
  {
  }

  /** One plant's pump: its lock, its motor's effort, and the record of
      every step performed on them since start-up. */
  class PumpActuator {
    /** The motor this pump drives; plant `i` drives motor `i + 1`. */
    const motor: nat
    var locked: bool
    var effort: real
    var log: seq<Event>

    /** The fields are the replay of the record, and the motor was never
        driven while the lock was free. */
    ghost predicate Valid()
      reads this
    {
      Replay(Idle, log) == State(locked, effort) && SafeRun(Idle, log)
    }

    predicate IsIdle()
      reads this
    {
      !locked && effort == 0.0
    }

    constructor (motor: nat)
      ensures Valid() && IsIdle() && log == [] && this.motor == motor
    {
      this.motor := motor;
      locked, effort, log := false, 0.0, [];
    }

    /** Run the pump for `secs` seconds under its lock; `ok` is false when
        the wait raised (the caller turns that into an error). */
    method Actuate(secs: Float) returns (ok: bool)
      requires Valid() && IsIdle()
      modifies this
      ensures Valid() && IsIdle()
      ensures ok == WaitAccepts(secs)
      ensures log == old(log) + Actuation(secs)
    {
      locked := true;
      log := log + [Acquire];
      effort := 1.0;
      log := log + [SetEffort(1.0)];
      ok := WaitAccepts(secs);
      if ok {
        log := log + [Wait(secs)];
      }
      effort := 0.0;
      log := log + [SetEffort(0.0)];
      locked := false;
      log := log + [Release];
      assert log == old(log) + Actuation(secs);
      ReplayAppend(Idle, old(log), Actuation(secs));
      ActuationIsSafe(secs);
      SafeRunAppend(Idle, old(log), Actuation(secs));
    }

    /** `motor.set_effort(0.0)` without taking the lock. */
    method Stop()
      requires Valid()
      modifies this
      ensures Valid() && effort == 0.0 && locked == old(locked)
      ensures log == old(log) + [SetEffort(0.0)]
    {
      ghost var before := Replay(Idle, log);
      assert log[..|log|] == log;
      assert Guarded(before);
      effort := 0.0;
      log := log + [SetEffort(0.0)];
      assert [SetEffort(0.0)][..1] == [SetEffort(0.0)];
      assert SafeRun(before, [SetEffort(0.0)]);
      SafeRunAppend(Idle, old(log), [SetEffort(0.0)]);
    }
  }
}
