/** The Lifecycle class, and the records it keeps for reporting timeouts. */
module Lifecycles {
  import opened Errors
  import opened Events
  import opened Logging
  import opened LifecycleSpec

  class Lifecycle {
    const logger: AppLogger
    const env: Callbacks             // what the callbacks do
    var hooks: seq<Hook>
    var numStarted: nat
    var startRecords: seq<HookRecord>
    var stopRecords: seq<HookRecord>
    var runningHook: Hook
    var tick: nat                    // the number of callbacks invoked so far
    ghost var trace: seq<Step>

    /** The fields and the events logged so far, as one value. */
    ghost function State(): State
      reads this, logger
    {
      LifecycleSpec.State(hooks, numStarted, startRecords, stopRecords, runningHook, tick, logger.emitted, trace)
    }

    ghost predicate Valid()
      reads this, logger, logger.Repr
    {
      logger.Valid() && this !in logger.Repr
    }

    constructor (logger: AppLogger, env: Callbacks)
      ensures this.logger == logger && this.env == env
      ensures hooks == [] && numStarted == 0 && startRecords == [] && stopRecords == []
      ensures runningHook == NO_HOOK && tick == 0 && trace == []
    {
      this.logger := logger;
      this.env := env;
      hooks, numStarted, startRecords, stopRecords, runningHook, tick := [], 0, [], [], NO_HOOK, 0;
      trace := [];
    }

    /** Adds a hook, with the function that called Append. */
    method Append(hook: Hook, caller: string)
      modifies this`hooks
      ensures hooks == old(hooks) + [hook.(caller := caller)]
    {
      hooks := hooks + [hook.(caller := caller)];
    }

    /** Runs a callback: it returns an outcome and may append hooks. */
    method Call() returns (out: Outcome)
      requires Valid()
      modifies this`tick, this`hooks
      ensures Valid() && State() == old(State()).Return(out)
      ensures out == env(old(tick))
    {
      out := env(tick);
      tick := tick + 1;
      hooks := hooks + out.appended;
    }

    /** Runs the OnStart callback of hook i, if it has one. */
    method StartHook(h: Hook, ghost i: nat) returns (err: Option<Error>)
      requires Valid()
      modifies this, logger.Repr
      ensures Valid() && logger.Repr == old(logger.Repr) && logger.log == old(logger.log)
      ensures State() == StartRound(old(State()), h, i, env)
      ensures err == StartError(old(State()), h, env)
    {
      err := None;
      if h.onStart.Some? {
        var f := h.onStart.value;
        logger.LogEvent(HookExecuting(OnStart, h.caller, f));
        runningHook := h;
        trace := trace + [StartCall(i)];
        assert State() == StartBegun(old(State()), h, f, i);
        var out := Call();
        if out.err.Some? {
          logger.LogEvent(HookExecuted(OnStart, h.caller, f, out.runtime, out.err));
          return out.err;
        }
        startRecords := startRecords + [HookRecord(h.caller, f, out.runtime)];
        logger.LogEvent(HookExecuted(OnStart, h.caller, f, out.runtime, None));
      }
    }

    /** Starts the hooks present on entry, until the first error. It does not reset numStarted. */
    method Start() returns (err: Option<Error>)
      requires Valid()
      modifies this, logger.Repr
      ensures Valid() && logger.Repr == old(logger.Repr) && logger.log == old(logger.log)
      ensures (State(), err) == LifecycleSpec.Start(old(State()), env)
    {
      hide StartRound, StartError;
      startRecords := [];
      var snap := hooks;
      var i := 0;
      while i < |snap|
        invariant 0 <= i <= |snap|
        invariant Valid() && logger.Repr == old(logger.Repr) && logger.log == old(logger.log)
        invariant StartFrom(State(), snap, i, env) == LifecycleSpec.Start(old(State()), env)
      {
        ghost var s := State();
        err := StartHook(snap[i], i);
        if err.Some? {
          return;
        }
        numStarted := numStarted + 1;
        trace := trace + [Push(i)];
        assert State() == StartRound(s, snap[i], i, env).CountUp(i);
        i := i + 1;
      }
      err := None;
    }

    /** Runs the OnStop callback of the hook on top, if it has one. */
    method StopTop() returns (err: Option<Error>)
      requires Valid() && 0 < numStarted <= |hooks|
      modifies this, logger.Repr
      ensures Valid() && logger.Repr == old(logger.Repr) && logger.log == old(logger.log)
      ensures State() == StopRound(old(State()), env)
      ensures AsList(err) == StopError(old(State()), env)
    {
      err := None;
      var h := hooks[numStarted - 1];
      if h.onStop.Some? {
        var f := h.onStop.value;
        logger.LogEvent(HookExecuting(OnStop, h.caller, f));
        runningHook := h;
        trace := trace + [StopCall(numStarted - 1)];
        assert State() == StopBegun(old(State()), h, f, numStarted - 1);
        var out := Call();
        err := out.err;
        if out.err.Some? {
          logger.LogEvent(HookExecuted(OnStop, h.caller, f, 0, out.err));
        }
        stopRecords := stopRecords + [HookRecord(h.caller, f, out.runtime)];
        if out.err.None? {
          logger.LogEvent(HookExecuted(OnStop, h.caller, f, out.runtime, None));
        }
      }
    }

    /** Panics in Go when more hooks count as started than there are. */
    method Stop() returns (err: Option<Error>)
      requires Valid() && numStarted <= |hooks|
      modifies this, logger.Repr
      ensures Valid() && logger.Repr == old(logger.Repr) && logger.log == old(logger.log)
      ensures (State(), err) == LifecycleSpec.Stop(old(State()), env)
    {
      hide StopRound, StopError, CombineErrors;
      var errs := [];
      stopRecords := [];
      while numStarted > 0
        invariant Valid() && logger.Repr == old(logger.Repr) && logger.log == old(logger.log)
        invariant numStarted <= |hooks|
        invariant StopFrom(State(), errs, env) == StopFrom(old(State()).(stopRecords := []), [], env)
      {
        ghost var s, errs0 := State(), errs;
        var e := StopTop();
        if e.Some? {
          errs := errs + [e.value];
        }
        trace := trace + [Pop(numStarted - 1)];
        numStarted := numStarted - 1;
        assert StopFrom(s, errs0, env) == StopFrom(State(), errs, env) by {
          assert State() == StopRound(s, env).CountDown();
          assert errs == errs0 + StopError(s, env);
        }
      }
      err := CombineErrors(errs);
    }

    /** A private copy of the start records. */
    method StartHookRecords() returns (r: array<HookRecord>)
      ensures fresh(r) && r[..] == startRecords
    {
      r := Copy(startRecords);
    }

    /** A private copy of the stop records. */
    method StopHookRecords() returns (r: array<HookRecord>)
      ensures fresh(r) && r[..] == stopRecords
    {
      r := Copy(stopRecords);
    }

    /** The function that appended the hook whose callback began last. */
    method RunningHookCaller() returns (caller: string)
      ensures caller == runningHook.caller
    {
      caller := runningHook.caller;
    }
  }

  method Copy(records: seq<HookRecord>) returns (r: array<HookRecord>)
    ensures fresh(r) && r[..] == records
  {
    r := new HookRecord[|records|](_ => HookRecord("", 0, 0));
    var i := 0;
    while i < |records|
      invariant 0 <= i <= |records| == r.Length
      invariant r[..i] == records[..i]
    {
      r[i] := records[i];
      i := i + 1;
    }
  }
}
