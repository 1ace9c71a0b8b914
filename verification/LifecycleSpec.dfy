/**
 * What one call of Lifecycle.Start or Lifecycle.Stop does, as functions on values.
 *
 * Callbacks are oracles: the n-th callback ever invoked returns env(n), an arbitrary error or nil,
 * takes an arbitrary time, and may append any number of hooks while it runs.
 */
module LifecycleSpec {
  import opened Errors
  import opened Events

  datatype Outcome = Outcome(err: Option<Error>, runtime: int, appended: seq<Hook>)

  type Callbacks = nat -> Outcome

  /** What happens to the hook at an index: a callback begins, or the hook (un)counts as started. */
  datatype Step = StartCall(index: nat) | Push(index: nat) | StopCall(index: nat) | Pop(index: nat)

  datatype State = State(
    hooks: seq<Hook>,
    numStarted: nat,
    startRecords: seq<HookRecord>,
    stopRecords: seq<HookRecord>,
    running: Hook,
    tick: nat,
    events: seq<Event>,
    trace: seq<Step>)
  {
    function Log(e: Event): State {
      this.(events := events + [e])
    }

    /** A callback of h begins: it becomes the running hook. */
    function Begin(step: Step, h: Hook): State {
      this.(running := h, trace := trace + [step])
    }

    /** The callback that began last returns. */
    function Return(out: Outcome): State {
      this.(tick := tick + 1, hooks := hooks + out.appended)
    }

    function RecordStart(r: HookRecord): State {
      this.(startRecords := startRecords + [r])
    }

    function RecordStop(r: HookRecord): State {
      this.(stopRecords := stopRecords + [r])
    }

    function CountUp(i: nat): State {
      this.(numStarted := numStarted + 1, trace := trace + [Push(i)])
    }

    function CountDown(): State
      requires numStarted > 0
    {
      this.(numStarted := numStarted - 1, trace := trace + [Pop(numStarted - 1)])
    }
  }

  function NewState(): State {
    State([], 0, [], [], NO_HOOK, 0, [], [])
  }

  // ----- Start -----

  /** The OnStart callback f of h begins: h is announced and becomes the running hook. */
  function StartBegun(s: State, h: Hook, f: Func, i: nat): State {
    s.Log(HookExecuting(OnStart, h.caller, f)).Begin(StartCall(i), h)
  }

  /** The state after the OnStart callback f of h returned out; it is recorded only if it succeeded. */
  function StartReturned(begun: State, h: Hook, f: Func, out: Outcome): State {
    var back, executed := begun.Return(out), HookExecuted(OnStart, h.caller, f, out.runtime, out.err);
    if out.err.Some? then back.Log(executed)
    else back.RecordStart(HookRecord(h.caller, f, out.runtime)).Log(executed)
  }

  /** One round of Start's loop, up to the test of the callback's result. */
  function StartRound(s: State, h: Hook, i: nat, env: Callbacks): State {
    match h.onStart
    case None => s
    case Some(f) => StartReturned(StartBegun(s, h, f, i), h, f, env(s.tick))
  }

  /** The error that round ends with. */
  function StartError(s: State, h: Hook, env: Callbacks): Option<Error> {
    if h.onStart.Some? then env(s.tick).err else None
  }

  /** The rest of Start's loop over the hooks that were present on entry, from index i. */
  function StartFrom(s: State, snap: seq<Hook>, i: nat, env: Callbacks): (r: (State, Option<Error>))
    requires i <= |snap|
    ensures s.hooks <= r.0.hooks
    ensures s.numStarted <= r.0.numStarted <= s.numStarted + |snap| - i
    ensures r.1.None? <==> r.0.numStarted == s.numStarted + |snap| - i
    ensures s.stopRecords == r.0.stopRecords
    decreases |snap| - i
  {
    if i == |snap| then (s, None)
    else
      var round := StartRound(s, snap[i], i, env);
      if StartError(s, snap[i], env).Some? then (round, StartError(s, snap[i], env))
      else StartFrom(round.CountUp(i), snap, i + 1, env)
  }

  /** Lifecycle.Start. It does not reset numStarted. */
  function Start(s: State, env: Callbacks): (r: (State, Option<Error>))
    ensures s.hooks <= r.0.hooks && r.0.numStarted <= s.numStarted + |s.hooks|
  {
    StartFrom(s.(startRecords := []), s.hooks, 0, env)
  }

  // ----- Stop -----

  function StopBegun(s: State, h: Hook, f: Func, i: nat): State {
    s.Log(HookExecuting(OnStop, h.caller, f)).Begin(StopCall(i), h)
  }

  /**
   * The state after the OnStop callback f of h returned out. It is recorded in either case, but the
   * runtime of a failed one is not logged.
   */
  function StopReturned(begun: State, h: Hook, f: Func, out: Outcome): State {
    var back, record := begun.Return(out), HookRecord(h.caller, f, out.runtime);
    if out.err.Some? then back.Log(HookExecuted(OnStop, h.caller, f, 0, out.err)).RecordStop(record)
    else back.RecordStop(record).Log(HookExecuted(OnStop, h.caller, f, out.runtime, None))
  }

  /** One round of Stop's loop, before the count goes down. */
  function StopRound(s: State, env: Callbacks): (r: State)
    requires 0 < s.numStarted <= |s.hooks|
    ensures r.numStarted == s.numStarted && s.hooks <= r.hooks
    ensures r.tick == s.tick + if s.hooks[s.numStarted - 1].onStop.Some? then 1 else 0
  {
    var i := s.numStarted - 1;
    var h := s.hooks[i];
    match h.onStop
    case None => s
    case Some(f) => StopReturned(StopBegun(s, h, f, i), h, f, env(s.tick))
  }

  /** The errors that round adds. */
  function StopError(s: State, env: Callbacks): seq<Error>
    requires 0 < s.numStarted <= |s.hooks|
  {
    if s.hooks[s.numStarted - 1].onStop.Some? then AsList(env(s.tick).err) else []
  }

  /** The rest of Stop's loop, from the current numStarted down, after collecting errs. */
  function StopFrom(s: State, errs: seq<Error>, env: Callbacks): (r: (State, seq<Error>))
    requires s.numStarted <= |s.hooks|
    ensures r.0.numStarted == 0
    ensures s.hooks <= r.0.hooks
    ensures s.startRecords == r.0.startRecords
    decreases s.numStarted
  {
    if s.numStarted == 0 then (s, errs)
    else StopFrom(StopRound(s, env).CountDown(), errs + StopError(s, env), env)
  }

  /** Lifecycle.Stop; Go panics when more hooks count as started than there are. */
  function Stop(s: State, env: Callbacks): (State, Option<Error>)
    requires s.numStarted <= |s.hooks|
  {
    var r := StopFrom(s.(stopRecords := []), [], env);
    (r.0, CombineErrors(r.1))
  }
}
