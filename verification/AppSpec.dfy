/** App.start: Lifecycle.Start, and Lifecycle.Stop as its rollback. */
module AppSpec {
  import opened Errors
  import opened Events
  import opened LifecycleSpec
  import opened LifecycleFacts

  /** The rollback of a Start that ended in s with an error. */
  function RollBack(s: State, err: Error, env: Callbacks): (State, Option<Error>)
    requires s.numStarted <= |s.hooks|
  {
    var (stopped, stopErr) := Stop(s.Log(Rollback(err)), env);
    if stopErr.Some?
    then (stopped.Log(RollbackError(stopErr.value)), Append(Some(err), stopErr))
    else (stopped, Some(err))
  }

  /** App.start, with initErr the error New ended with. */
  function AppStart(s: State, initErr: Option<Error>, env: Callbacks): (State, Option<Error>)
    requires s.numStarted == 0
  {
    if initErr.Some? then (s, initErr)
    else
      var (started, err) := Start(s, env);
      if err.Some? then RollBack(started, err.value, env)
      else (started.Log(Running), None)
  }

  /** The error list start reports: what went wrong at hook k, then what went wrong undoing the others. */
  function RollbackErrors(hs: seq<Hook>, env: Callbacks, t: nat, k: nat): seq<Error>
    requires k <= |hs|
  {
    var c := t + StartCalls(hs, k);
    ErrorsOf(env(c).err) + FlattenAll(CallErrors(env, c + 1, StopCalls(hs, k)))
  }

  /** What a rollback of n hooks logs: that it begins, the OnStop callbacks, and their errors if there are any. */
  function RollbackEvents(hs: seq<Hook>, env: Callbacks, t: nat, n: nat, err: Error): seq<Event>
    requires n <= |hs|
  {
    [Rollback(err)] + StopEvents(hs, env, t, n) +
    match CombineErrors(CallErrors(env, t, StopCalls(hs, n)))
    case None => []
    case Some(stopErr) => [RollbackError(stopErr)]
  }

  lemma RollBackLogs(s: State, hs: seq<Hook>, err: Error, env: Callbacks)
    requires hs <= s.hooks && s.numStarted <= |hs|
    ensures RollBack(s, err, env).0.events == s.events + RollbackEvents(hs, env, s.tick, s.numStarted, err)
  {
    hide Stop, CallErrors, StopCalls, StopTrace, StopRunning, StopRecords, StopEvents, Appended, FlattenAll, ErrorsOf,
      CombineErrors, Append;
    var logged := s.Log(Rollback(err));
    StopOutcome(logged, hs, env);
    var (stopped, stopErr) := Stop(logged, env);
    var es := StopEvents(hs, env, s.tick, s.numStarted);
    assert stopErr == CombineErrors(CallErrors(env, s.tick, StopCalls(hs, s.numStarted)));
    assert stopped.events == s.events + [Rollback(err)] + es;
    if stopErr.Some? {
      assert stopped.events + [RollbackError(stopErr.value)] ==
        s.events + ([Rollback(err)] + es + [RollbackError(stopErr.value)]);
    } else {
      assert stopped.events == s.events + ([Rollback(err)] + es + []);
    }
  }

  /** What a rollback does: it stops everything that started and adds its errors after the start error. */
  lemma RollBackOutcome(s: State, hs: seq<Hook>, err: Error, env: Callbacks)
    requires hs <= s.hooks && s.numStarted <= |hs|
    ensures
      var n, (s', err') := s.numStarted, RollBack(s, err, env);
      && err'.Some?
      && ErrorsOf(err') == ErrorsOf(Some(err)) + FlattenAll(CallErrors(env, s.tick, StopCalls(hs, n)))
      && (CallErrors(env, s.tick, StopCalls(hs, n)) == [] ==> err' == Some(err))
      && s'.numStarted == 0
      && s'.startRecords == s.startRecords
      && s'.stopRecords == StopRecords(hs, env, s.tick, n)
      && s'.events == s.events + RollbackEvents(hs, env, s.tick, n, err)
      && s'.trace == s.trace + StopTrace(hs, n)
      && s'.running == StopRunning(hs, n, s.running)
  {
    var logged := s.Log(Rollback(err));
    hide Stop, CallErrors, StopCalls, StopTrace, StopRunning, StopRecords, StopEvents, Appended, FlattenAll,
      RollbackEvents;
    StopOutcome(logged, hs, env);
    RollBackLogs(s, hs, err, env);
    AppendIsCombine(Some(err), Stop(logged, env).1);
  }

  /** If no OnStart callback fails, every hook present on entry starts, in order, and Running is logged. */
  lemma StartSucceeds(s: State, env: Callbacks)
    requires s.numStarted == 0 && FirstFailure(s.hooks, env, s.tick) == |s.hooks|
    ensures
      var hs, t, (s', err) := s.hooks, s.tick, AppStart(s, None, env);
      && err == None
      && s'.numStarted == |hs|
      && s'.startRecords == StartRecords(hs, env, t, |hs|)
      && s'.trace == s.trace + StartTrace(hs, |hs|)
      && s'.events == s.events + StartEvents(hs, env, t, |hs|) + [Running]
  {
    hide Start, StartTrace, StartRecords, StartEvents;
    StartOutcome(s, env);
  }

  /** What a start logs that fails at hook k: the hooks before it, the failed one, and the rollback. */
  function FailedStartEvents(hs: seq<Hook>, env: Callbacks, t: nat, k: nat): seq<Event>
    requires k < |hs| && Fails(hs, env, t, k)
  {
    var c := t + StartCalls(hs, k);
    StartEvents(hs, env, t, k) + StartPair(hs[k], hs[k].onStart.value, env(c)) +
    RollbackEvents(hs, env, c + 1, k, env(c).err.value)
  }

  /**
   * start is all-or-nothing: if the OnStart callback of hook k is the first to fail, exactly the k hooks
   * before it are stopped again, latest first, nothing counts as started, and the error list is the
   * start error followed by the OnStop errors in the order of those calls: the start error itself if
   * no OnStop callback fails.
   */
  lemma StartIsAllOrNothing(s: State, env: Callbacks)
    requires s.numStarted == 0 && FirstFailure(s.hooks, env, s.tick) < |s.hooks|
    ensures
      var hs, t, k := s.hooks, s.tick, FirstFailure(s.hooks, env, s.tick);
      var (s', err) := AppStart(s, None, env);
      && err.Some?
      && ErrorsOf(err) == RollbackErrors(hs, env, t, k)
      && (CallErrors(env, t + StartCalls(hs, k) + 1, StopCalls(hs, k)) == [] ==> err == env(t + StartCalls(hs, k)).err)
      && s'.numStarted == 0
      && s'.startRecords == StartRecords(hs, env, t, k)
      && s'.stopRecords == StopRecords(hs, env, t + StartCalls(hs, k) + 1, k)
      && s'.events == s.events + FailedStartEvents(hs, env, t, k)
      && s'.trace == s.trace + StartTrace(hs, k) + [StartCall(k)] + StopTrace(hs, k)
      && s'.running == StopRunning(hs, k, hs[k])
  {
    hide Start, RollBack, StartTrace, StopTrace, StopRunning, StartRecords, StartEvents, StopCalls, CallErrors,
      FlattenAll, StopRecords, RollbackEvents, StartPair;
    var hs, k := s.hooks, FirstFailure(s.hooks, env, s.tick);
    var failed := FailedState(s, env, k);
    StartOutcome(s, env);
    assert hs <= failed.hooks;
    RollBackOutcome(failed, hs, env(failed.tick - 1).err.value, env);
  }

  /**
   * Which steps a start that fails at hook k takes: OnStart of the hooks up to and including k that have
   * one, OnStop of those below k that have one, each exactly once, and nothing for any later hook.
   */
  lemma FailedStartCallbacks(s: State, env: Callbacks, step: Step)
    requires s.numStarted == 0
    requires FirstFailure(s.hooks, env, s.tick) < |s.hooks|
    ensures
      var hs, k, s' := s.hooks, FirstFailure(s.hooks, env, s.tick), AppStart(s, None, env).0;
      && s.trace <= s'.trace
      && Count(s'.trace[|s.trace|..], step) ==
         match step
         case StartCall(i) => if i <= k && hs[i].onStart.Some? then 1 else 0
         case StopCall(i) => if i < k && hs[i].onStop.Some? then 1 else 0
         case Push(i) => if i < k then 1 else 0
         case Pop(i) => if i < k then 1 else 0
  {
    hide AppStart, StartTrace, StopTrace, Count, RollbackErrors, StopRunning, StartRecords, StartCalls, StopCalls,
      CallErrors;
    var hs, k, s' := s.hooks, FirstFailure(s.hooks, env, s.tick), AppStart(s, None, env).0;
    StartIsAllOrNothing(s, env);
    var up, down := StartTrace(hs, k), StopTrace(hs, k);
    assert s'.trace[|s.trace|..] == up + [StartCall(k)] + down;
    CountAround(up, StartCall(k), down, step);
    StartTraceCounts(hs, k, step);
    StopTraceCounts(hs, k, step);
  }

  lemma CountAround(up: seq<Step>, mid: Step, down: seq<Step>, step: Step)
    ensures Count(up + [mid] + down, step) == Count(up, step) + (if mid == step then 1 else 0) + Count(down, step)
  {
    CountConcat(up + [mid], down, step);
    assert (up + [mid])[..|up|] == up;
  }
}
