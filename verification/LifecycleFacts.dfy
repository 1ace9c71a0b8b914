/**
 * Closed forms of Start and Stop, hook by hook, and what they say about records, events and callbacks.
 * The closed forms never look at the running state: they speak only of the hooks present on entry and
 * of the outcomes of the callbacks.
 */
module LifecycleFacts {
  import opened Errors
  import opened Events
  import opened LifecycleSpec

  // ----- Which callbacks run, and what they return -----

  /** How many of the first k hooks have an OnStart callback. */
  function StartCalls(hs: seq<Hook>, k: nat): (n: nat)
    requires k <= |hs|
    ensures n <= k
  {
    if k == 0 then 0 else StartCalls(hs, k - 1) + if hs[k - 1].onStart.Some? then 1 else 0
  }

  /** How many of the first n hooks have an OnStop callback. */
  function StopCalls(hs: seq<Hook>, n: nat): nat
    requires n <= |hs|
  {
    if n == 0 then 0 else (if hs[n - 1].onStop.Some? then 1 else 0) + StopCalls(hs, n - 1)
  }

  /** The OnStart callback of hook i fails, if the hooks before it ran from call number t on. */
  predicate Fails(hs: seq<Hook>, env: Callbacks, t: nat, i: nat)
    requires i < |hs|
  {
    hs[i].onStart.Some? && env(t + StartCalls(hs, i)).err.Some?
  }

  /** The first hook from index i on whose OnStart callback fails; the number of hooks if there is none. */
  function FirstFailure(hs: seq<Hook>, env: Callbacks, t: nat, i: nat := 0): (k: nat)
    requires i <= |hs|
    ensures i <= k <= |hs|
    ensures forall j | i <= j < k :: !Fails(hs, env, t, j)
    ensures k < |hs| ==> Fails(hs, env, t, k)
    decreases |hs| - i
  {
    if i == |hs| || Fails(hs, env, t, i) then i else FirstFailure(hs, env, t, i + 1)
  }

  /** The hooks appended by the c callbacks from call number t on. */
  function Appended(env: Callbacks, t: nat, c: nat): seq<Hook> {
    if c == 0 then [] else Appended(env, t, c - 1) + env(t + c - 1).appended
  }

  /** The errors returned by the c callbacks from call number t on, oldest first. */
  function CallErrors(env: Callbacks, t: nat, c: nat): seq<Error>
    decreases c
  {
    if c == 0 then [] else AsList(env(t).err) + CallErrors(env, t + 1, c - 1)
  }

  // ----- Start, the first k hooks all succeeding -----

  /** The steps that concern a hook when it starts, and when it stops. */
  function Starting(h: Hook, i: nat): seq<Step> {
    if h.onStart.Some? then [StartCall(i), Push(i)] else [Push(i)]
  }

  function Stopping(h: Hook, i: nat): seq<Step> {
    if h.onStop.Some? then [StopCall(i), Pop(i)] else [Pop(i)]
  }

  function StartTrace(hs: seq<Hook>, k: nat): seq<Step>
    requires k <= |hs|
  {
    if k == 0 then []
    else StartTrace(hs, k - 1) + Starting(hs[k - 1], k - 1)
  }

  function StartRecords(hs: seq<Hook>, env: Callbacks, t: nat, k: nat): (rs: seq<HookRecord>)
    requires k <= |hs|
    ensures |rs| == StartCalls(hs, k)
  {
    if k == 0 then []
    else
      StartRecords(hs, env, t, k - 1) +
      match hs[k - 1].onStart
      case None => []
      case Some(f) => [HookRecord(hs[k - 1].caller, f, env(t + StartCalls(hs, k - 1)).runtime)]
  }

  /** The pair of events of the OnStart callback f of h, when it returns out. */
  function StartPair(h: Hook, f: Func, out: Outcome): seq<Event> {
    [HookExecuting(OnStart, h.caller, f), HookExecuted(OnStart, h.caller, f, out.runtime, out.err)]
  }

  function StartEvents(hs: seq<Hook>, env: Callbacks, t: nat, k: nat): seq<Event>
    requires k <= |hs|
  {
    if k == 0 then []
    else
      StartEvents(hs, env, t, k - 1) +
      match hs[k - 1].onStart
      case None => []
      case Some(f) => StartPair(hs[k - 1], f, env(t + StartCalls(hs, k - 1)))
  }

  /** The running hook after the first k hooks: the last one of them with an OnStart callback. */
  function StartRunning(hs: seq<Hook>, k: nat, before: Hook): Hook
    requires k <= |hs|
  {
    if k == 0 then before
    else if hs[k - 1].onStart.Some? then hs[k - 1]
    else StartRunning(hs, k - 1, before)
  }

  /** The state of a Start entered at s0 once its first k hooks started. */
  function StartedState(s0: State, env: Callbacks, k: nat): State
    requires k <= |s0.hooks|
  {
    var c := StartCalls(s0.hooks, k);
    State(
      s0.hooks + Appended(env, s0.tick, c),
      s0.numStarted + k,
      StartRecords(s0.hooks, env, s0.tick, k),
      s0.stopRecords,
      StartRunning(s0.hooks, k, s0.running),
      s0.tick + c,
      s0.events + StartEvents(s0.hooks, env, s0.tick, k),
      s0.trace + StartTrace(s0.hooks, k))
  }

  /** The state of a Start entered at s0 once the OnStart callback f of hook k failed. */
  function FailedState(s0: State, env: Callbacks, k: nat): State
    requires k < |s0.hooks| && s0.hooks[k].onStart.Some?
  {
    var s, h := StartedState(s0, env, k), s0.hooks[k];
    var out := env(s.tick);
    s.(running := h, tick := s.tick + 1, hooks := s.hooks + out.appended,
       events := s.events + StartPair(h, h.onStart.value, out), trace := s.trace + [StartCall(k)])
  }

  /** What one round with an OnStart callback that succeeds adds to each field. */
  lemma StartRoundAdds(s: State, h: Hook, i: nat, env: Callbacks)
    requires h.onStart.Some? && env(s.tick).err.None?
    ensures
      var out := env(s.tick);
      StartRound(s, h, i, env).CountUp(i) == State(
        s.hooks + out.appended, s.numStarted + 1,
        s.startRecords + [HookRecord(h.caller, h.onStart.value, out.runtime)], s.stopRecords,
        h, s.tick + 1, s.events + StartPair(h, h.onStart.value, out), s.trace + Starting(h, i))
  {
    var next := StartRound(s, h, i, env).CountUp(i);
    assert next.trace == s.trace + Starting(h, i);
    assert next.events == s.events + StartPair(h, h.onStart.value, env(s.tick));
  }

  /** One round of Start's loop, for a hook that starts, leads from one closed form to the next. */
  lemma StartRoundState(s0: State, i: nat, env: Callbacks)
    requires i < |s0.hooks| && !Fails(s0.hooks, env, s0.tick, i)
    ensures
      StartRound(StartedState(s0, env, i), s0.hooks[i], i, env).CountUp(i) == StartedState(s0, env, i + 1)
  {
    var hs, s, next := s0.hooks, StartedState(s0, env, i), StartedState(s0, env, i + 1);
    var round := StartRound(s, hs[i], i, env).CountUp(i);
    if hs[i].onStart.Some? {
      hide StartRound, Starting, StartPair;
      StartRoundAdds(s, hs[i], i, env);
    }
    assert round.trace == next.trace;
    assert round.events == next.events;
    assert round.hooks == next.hooks;
    assert round.startRecords == next.startRecords;
  }

  lemma StartRoundClosed(s0: State, i: nat, env: Callbacks)
    requires i < |s0.hooks| && !Fails(s0.hooks, env, s0.tick, i)
    ensures
      StartFrom(StartedState(s0, env, i), s0.hooks, i, env) ==
      StartFrom(StartedState(s0, env, i + 1), s0.hooks, i + 1, env)
  {
    var s := StartedState(s0, env, i);
    assert StartError(s, s0.hooks[i], env).None?;
    hide StartRound, StartedState, StartError;
    StartRoundState(s0, i, env);
  }

  /** The round of Start's loop in which a callback fails. */
  lemma FailedRoundClosed(s0: State, i: nat, env: Callbacks)
    requires i < |s0.hooks| && Fails(s0.hooks, env, s0.tick, i)
    ensures
      StartFrom(StartedState(s0, env, i), s0.hooks, i, env) ==
      (FailedState(s0, env, i), env(s0.tick + StartCalls(s0.hooks, i)).err)
  {
    var s, h := StartedState(s0, env, i), s0.hooks[i];
    var failed := StartRound(s, h, i, env);
    assert failed.events == FailedState(s0, env, i).events;
    assert failed == FailedState(s0, env, i);
  }

  lemma {:induction false} StartFromStarted(s0: State, k: nat, env: Callbacks)
    requires k <= |s0.hooks|
    requires forall i | 0 <= i < k :: !Fails(s0.hooks, env, s0.tick, i)
    ensures
      StartFrom(StartedState(s0, env, 0), s0.hooks, 0, env) ==
      StartFrom(StartedState(s0, env, k), s0.hooks, k, env)
  {
    if k > 0 {
      StartFromStarted(s0, k - 1, env);
      StartRoundClosed(s0, k - 1, env);
    }
  }

  /**
   * Start stops at the first failing OnStart callback and nowhere else. It has then run exactly the
   * callbacks of the hooks before it, each once and in order, and recorded exactly those.
   */
  lemma StartOutcome(s: State, env: Callbacks)
    ensures
      var k := FirstFailure(s.hooks, env, s.tick);
      Start(s, env) ==
      if k < |s.hooks|
      then (FailedState(s, env, k), env(s.tick + StartCalls(s.hooks, k)).err)
      else (StartedState(s, env, k), None)
  {
    var k := FirstFailure(s.hooks, env, s.tick);
    assert StartedState(s, env, 0) == s.(startRecords := []);
    StartFromStarted(s, k, env);
    if k < |s.hooks| {
      FailedRoundClosed(s, k, env);
    }
  }

  // ----- Stop of the first n hooks -----

  function StopTrace(hs: seq<Hook>, n: nat): seq<Step>
    requires n <= |hs|
  {
    if n == 0 then []
    else Stopping(hs[n - 1], n - 1) + StopTrace(hs, n - 1)
  }

  function StopRecords(hs: seq<Hook>, env: Callbacks, t: nat, n: nat): (rs: seq<HookRecord>)
    requires n <= |hs|
    ensures |rs| == StopCalls(hs, n)
    decreases n
  {
    if n == 0 then []
    else
      match hs[n - 1].onStop
      case None => StopRecords(hs, env, t, n - 1)
      case Some(f) => [HookRecord(hs[n - 1].caller, f, env(t).runtime)] + StopRecords(hs, env, t + 1, n - 1)
  }

  /** The pair of events of the OnStop callback f of h; a failed one carries no runtime. */
  function StopPair(h: Hook, f: Func, out: Outcome): seq<Event> {
    [HookExecuting(OnStop, h.caller, f),
     HookExecuted(OnStop, h.caller, f, if out.err.Some? then 0 else out.runtime, out.err)]
  }

  function StopEvents(hs: seq<Hook>, env: Callbacks, t: nat, n: nat): seq<Event>
    requires n <= |hs|
    decreases n
  {
    if n == 0 then []
    else
      match hs[n - 1].onStop
      case None => StopEvents(hs, env, t, n - 1)
      case Some(f) => StopPair(hs[n - 1], f, env(t)) + StopEvents(hs, env, t + 1, n - 1)
  }

  /** The lowest of hooks low to n - 1 that has an OnStop callback. */
  function LowestStop(hs: seq<Hook>, n: nat, low: nat := 0): (q: Option<nat>)
    requires low <= n <= |hs|
    ensures q.Some? ==> low <= q.value < n && hs[q.value].onStop.Some?
    ensures forall i | low <= i < n && hs[i].onStop.Some? :: q.Some? && q.value <= i
  {
    if n == low then None
    else
      var below := LowestStop(hs, n - 1, low);
      if below.Some? then below
      else if hs[n - 1].onStop.Some? then Some(n - 1) else None
  }

  /** The hook at an index, or another one if there is no index. */
  function HookAt(hs: seq<Hook>, q: Option<nat>, other: Hook): Hook
    requires q.Some? ==> q.value < |hs|
  {
    if q.Some? then hs[q.value] else other
  }

  /** The running hook once the OnStop callbacks of hooks n - 1 down to low began. */
  function StopRunning(hs: seq<Hook>, n: nat, before: Hook, low: nat := 0): Hook
    requires low <= n <= |hs|
  {
    HookAt(hs, LowestStop(hs, n, low), before)
  }

  /** The state after every started hook of s was stopped, given the hooks hs it started from. */
  function StoppedState(s: State, hs: seq<Hook>, env: Callbacks): State
    requires s.numStarted <= |hs|
  {
    var n, c := s.numStarted, StopCalls(hs, s.numStarted);
    State(
      s.hooks + Appended(env, s.tick, c),
      0,
      s.startRecords,
      s.stopRecords + StopRecords(hs, env, s.tick, n),
      StopRunning(hs, n, s.running),
      s.tick + c,
      s.events + StopEvents(hs, env, s.tick, n),
      s.trace + StopTrace(hs, n))
  }

  lemma {:induction false} AppendedFirst(env: Callbacks, t: nat, c: nat)
    requires c > 0
    ensures Appended(env, t, c) == env(t).appended + Appended(env, t + 1, c - 1)
  {
    if c > 1 {
      AppendedFirst(env, t, c - 1);
    }
  }

  /** One round of Stop's loop does not change what the whole loop ends in. */
  lemma StopRoundClosed(s: State, hs: seq<Hook>, env: Callbacks)
    requires hs <= s.hooks && 0 < s.numStarted <= |hs|
    ensures StoppedState(StopRound(s, env).CountDown(), hs, env) == StoppedState(s, hs, env)
  {
    assert hs[s.numStarted - 1] == s.hooks[s.numStarted - 1];
    if hs[s.numStarted - 1].onStop.Some? {
      StopRoundCalled(s, hs, env);
    } else {
      StopRoundSkipped(s, hs, env);
    }
    hide StoppedState, StopRound;
  }

  lemma StopRoundSkipped(s: State, hs: seq<Hook>, env: Callbacks)
    requires hs <= s.hooks && 0 < s.numStarted <= |hs| && s.hooks[s.numStarted - 1].onStop.None?
    ensures StoppedState(s.CountDown(), hs, env) == StoppedState(s, hs, env)
  {
    assert hs[s.numStarted - 1] == s.hooks[s.numStarted - 1];
    assert StoppedState(s.CountDown(), hs, env).trace == StoppedState(s, hs, env).trace;
  }

  /** What one round with an OnStop callback adds to each field. */
  lemma StopRoundAdds(s: State, env: Callbacks)
    requires 0 < s.numStarted <= |s.hooks| && s.hooks[s.numStarted - 1].onStop.Some?
    ensures
      var n, h, out := s.numStarted, s.hooks[s.numStarted - 1], env(s.tick);
      StopRound(s, env).CountDown() == State(
        s.hooks + out.appended, n - 1, s.startRecords,
        s.stopRecords + [HookRecord(h.caller, h.onStop.value, out.runtime)],
        h, s.tick + 1, s.events + StopPair(h, h.onStop.value, out), s.trace + Stopping(h, n - 1))
  {
    var n, h, out := s.numStarted, s.hooks[s.numStarted - 1], env(s.tick);
    var next := StopRound(s, env).CountDown();
    assert next.trace == s.trace + Stopping(h, n - 1);
    assert next.events == s.events + StopPair(h, h.onStop.value, out);
  }

  lemma StopRoundCalled(s: State, hs: seq<Hook>, env: Callbacks)
    requires hs <= s.hooks && 0 < s.numStarted <= |hs| && s.hooks[s.numStarted - 1].onStop.Some?
    ensures StoppedState(StopRound(s, env).CountDown(), hs, env) == StoppedState(s, hs, env)
  {
    hide StopRound, StopPair, Stopping;
    var n := s.numStarted;
    var a, b := StoppedState(StopRound(s, env).CountDown(), hs, env), StoppedState(s, hs, env);
    assert hs[n - 1] == s.hooks[n - 1];
    StopRoundAdds(s, env);
    AppendedFirst(env, s.tick, StopCalls(hs, n));
    assert a.hooks == b.hooks;
    assert a.trace == b.trace;
    assert a.events == b.events;
    assert a.stopRecords == b.stopRecords;
  }

  lemma {:induction false} StopFromStopped(s: State, hs: seq<Hook>, errs: seq<Error>, env: Callbacks)
    requires hs <= s.hooks && s.numStarted <= |hs|
    ensures StopFrom(s, errs, env).0 == StoppedState(s, hs, env)
    decreases s.numStarted
  {
    if s.numStarted == 0 {
      assert StoppedState(s, hs, env) == s;
    } else {
      hide StoppedState, StopRound;
      StopRoundClosed(s, hs, env);
      StopFromStopped(StopRound(s, env).CountDown(), hs, errs + StopError(s, env), env);
    }
  }

  lemma CallErrorsUnfold(env: Callbacks, t: nat, c: nat)
    ensures CallErrors(env, t, c + 1) == AsList(env(t).err) + CallErrors(env, t + 1, c)
  {
  }

  /** The errors still to come in Stop's loop. */
  function ErrorsLeft(s: State, hs: seq<Hook>, env: Callbacks): seq<Error>
    requires s.numStarted <= |hs|
  {
    CallErrors(env, s.tick, StopCalls(hs, s.numStarted))
  }

  lemma ErrorsLeftUnfold(s: State, hs: seq<Hook>, env: Callbacks)
    requires hs <= s.hooks && s.numStarted <= |hs|
    ensures ErrorsLeft(s, hs, env) ==
      if s.numStarted == 0 then []
      else StopError(s, env) + ErrorsLeft(StopRound(s, env).CountDown(), hs, env)
  {
    if s.numStarted > 0 {
      var n, c := s.numStarted, StopCalls(hs, s.numStarted - 1);
      assert hs[n - 1] == s.hooks[n - 1];
      assert StopCalls(hs, n) == if hs[n - 1].onStop.Some? then c + 1 else c;
      hide StopRound, StopCalls, CallErrors;
      if hs[n - 1].onStop.Some? {
        CallErrorsUnfold(env, s.tick, c);
      }
    }
  }

  lemma {:induction false} StopFromErrors(s: State, hs: seq<Hook>, errs: seq<Error>, env: Callbacks)
    requires hs <= s.hooks && s.numStarted <= |hs|
    ensures StopFrom(s, errs, env).1 == errs + ErrorsLeft(s, hs, env)
    decreases s.numStarted
  {
    hide ErrorsLeft, StopError, StopRound;
    ErrorsLeftUnfold(s, hs, env);
    if s.numStarted > 0 {
      var e, next := StopError(s, env), StopRound(s, env).CountDown();
      StopFromErrors(next, hs, errs + e, env);
      assert errs + e + ErrorsLeft(next, hs, env) == errs + (e + ErrorsLeft(next, hs, env));
    }
  }

  /**
   * Stop is total and best-effort: whatever the callbacks return, every started hook's OnStop callback
   * runs, nothing counts as started afterwards, and the result combines every error in call order.
   */
  lemma StopOutcome(s: State, hs: seq<Hook>, env: Callbacks)
    requires hs <= s.hooks && s.numStarted <= |hs|
    ensures
      var errs := CallErrors(env, s.tick, StopCalls(hs, s.numStarted));
      && Stop(s, env) == (StoppedState(s.(stopRecords := []), hs, env), CombineErrors(errs))
      && ErrorsOf(Stop(s, env).1) == FlattenAll(errs)
      && (Stop(s, env).1.None? <==> errs == [])
      && (|errs| == 1 ==> Stop(s, env).1 == Some(errs[0]))
  {
    var errs := CallErrors(env, s.tick, StopCalls(hs, s.numStarted));
    StopFromStopped(s.(stopRecords := []), hs, [], env);
    StopFromErrors(s.(stopRecords := []), hs, [], env);
    assert [] + errs == errs;
    CombineErrorsParts(errs);
  }

  /** How often a step occurs in a trace. */
  function Count(tr: seq<Step>, step: Step): nat {
    if tr == [] then 0
    else Count(tr[..|tr| - 1], step) + if tr[|tr| - 1] == step then 1 else 0
  }

  lemma NoSteps(step: Step)
    ensures Count([], step) == 0
  {
  }

  lemma {:induction false} CountConcat(a: seq<Step>, b: seq<Step>, step: Step)
    ensures Count(a + b, step) == Count(a, step) + Count(b, step)
  {
    if b == [] {
      assert a + b == a;
    } else {
      assert (a + b)[..|a + b| - 1] == a + b[..|b| - 1];
      CountConcat(a, b[..|b| - 1], step);
    }
  }

  lemma StartingCounts(h: Hook, i: nat, step: Step)
    ensures Count(Starting(h, i), step) ==
      if step == Push(i) || (step == StartCall(i) && h.onStart.Some?) then 1 else 0
    ensures Count(Stopping(h, i), step) ==
      if step == Pop(i) || (step == StopCall(i) && h.onStop.Some?) then 1 else 0
  {
    assert [StartCall(i), Push(i)][..1] == [StartCall(i)];
    assert [StopCall(i), Pop(i)][..1] == [StopCall(i)];
    assert Count([StartCall(i)], step) == if step == StartCall(i) then 1 else 0;
    assert Count([StopCall(i)], step) == if step == StopCall(i) then 1 else 0;
  }

  /**
   * The steps of Stop on n started hooks: the OnStop callback of each of them that has one runs exactly
   * once, each of them is taken off exactly once, and nothing happens to any other hook.
   */
  lemma {:induction false} StopTraceCounts(hs: seq<Hook>, n: nat, step: Step)
    requires n <= |hs|
    ensures Count(StopTrace(hs, n), step) ==
      match step
      case StopCall(i) => if i < n && hs[i].onStop.Some? then 1 else 0
      case Pop(i) => if i < n then 1 else 0
      case _ => 0
  {
    hide Count, Stopping;
    NoSteps(step);
    if n > 0 {
      CountConcat(Stopping(hs[n - 1], n - 1), StopTrace(hs, n - 1), step);
      StartingCounts(hs[n - 1], n - 1, step);
      StopTraceCounts(hs, n - 1, step);
    }
  }

  /** The steps of starting the first k hooks: each OnStart callback and each push exactly once. */
  lemma {:induction false} StartTraceCounts(hs: seq<Hook>, k: nat, step: Step)
    requires k <= |hs|
    ensures Count(StartTrace(hs, k), step) ==
      match step
      case StartCall(i) => if i < k && hs[i].onStart.Some? then 1 else 0
      case Push(i) => if i < k then 1 else 0
      case _ => 0
  {
    hide Count, Starting;
    NoSteps(step);
    if k > 0 {
      CountConcat(StartTrace(hs, k - 1), Starting(hs[k - 1], k - 1), step);
      StartingCounts(hs[k - 1], k - 1, step);
      StartTraceCounts(hs, k - 1, step);
    }
  }

  // ----- Records and events agree -----

  /** Two events of one callback: it begins, and then it ended. */
  predicate IsPair(a: Event, b: Event) {
    a.HookExecuting? && b.HookExecuted? && a.hookMethod == b.hookMethod && a.caller == b.caller && a.func == b.func
  }

  /** The events are a concatenation of pairs. */
  predicate Paired(es: seq<Event>) {
    es == [] || (|es| >= 2 && IsPair(es[|es| - 2], es[|es| - 1]) && Paired(es[..|es| - 2]))
  }

  /** The records of the successful OnStart pairs, read off the events alone. */
  function SuccessfulStarts(es: seq<Event>): seq<HookRecord> {
    if es == [] then []
    else
      var e := es[|es| - 1];
      SuccessfulStarts(es[..|es| - 1]) +
      if e.HookExecuted? && e.hookMethod == OnStart && e.err.None?
      then [HookRecord(e.caller, e.func, e.runtime)] else []
  }

  ghost predicate NoErrors(es: seq<Event>) {
    forall j | 0 <= j < |es| :: es[j].HookExecuted? ==> es[j].err.None?
  }

  predicate IsFailure(e: Event, err: Option<Error>) {
    e.HookExecuted? && e.err == err
  }

  lemma NoPairs()
    ensures Paired([]) && SuccessfulStarts([]) == []
  {
  }

  lemma AddPair(es: seq<Event>, a: Event, b: Event)
    requires Paired(es) && IsPair(a, b)
    ensures Paired(es + [a, b])
    ensures SuccessfulStarts(es + [a, b]) == SuccessfulStarts(es) +
      if b.hookMethod == OnStart && b.err.None? then [HookRecord(b.caller, b.func, b.runtime)] else []
  {
    var all := es + [a, b];
    assert all[..|all| - 2] == es;
    assert all[..|all| - 1] == es + [a];
    assert (es + [a])[..|es|] == es;
  }

  lemma {:induction false} StartEventsMatchRecords(hs: seq<Hook>, env: Callbacks, t: nat, k: nat)
    requires k <= |hs|
    requires forall i | 0 <= i < k :: !Fails(hs, env, t, i)
    ensures Paired(StartEvents(hs, env, t, k))
    ensures SuccessfulStarts(StartEvents(hs, env, t, k)) == StartRecords(hs, env, t, k)
  {
    hide Paired, SuccessfulStarts;
    NoPairs();
    if k > 0 {
      StartEventsMatchRecords(hs, env, t, k - 1);
      assert !Fails(hs, env, t, k - 1);
      if hs[k - 1].onStart.Some? {
        var pair := StartPair(hs[k - 1], hs[k - 1].onStart.value, env(t + StartCalls(hs, k - 1)));
        AddPair(StartEvents(hs, env, t, k - 1), pair[0], pair[1]);
        assert pair == [pair[0], pair[1]];
      } else {
        assert StartEvents(hs, env, t, k) == StartEvents(hs, env, t, k - 1);
        assert StartRecords(hs, env, t, k) == StartRecords(hs, env, t, k - 1);
      }
    }
  }

  lemma {:induction false} StartEventsNoErrors(hs: seq<Hook>, env: Callbacks, t: nat, k: nat)
    requires k <= |hs|
    requires forall i | 0 <= i < k :: !Fails(hs, env, t, i)
    ensures NoErrors(StartEvents(hs, env, t, k))
  {
    if k > 0 {
      StartEventsNoErrors(hs, env, t, k - 1);
      assert !Fails(hs, env, t, k - 1);
    }
  }

  /** The new events of a failed Start: the pairs of the started hooks, then the failed pair. */
  lemma FailedEventsMatchRecords(hs: seq<Hook>, env: Callbacks, t: nat, k: nat)
    requires k < |hs| && Fails(hs, env, t, k)
    requires forall i | 0 <= i < k :: !Fails(hs, env, t, i)
    ensures
      var pair := StartPair(hs[k], hs[k].onStart.value, env(t + StartCalls(hs, k)));
      var es := StartEvents(hs, env, t, k) + pair;
      && Paired(es)
      && SuccessfulStarts(es) == StartRecords(hs, env, t, k)
      && NoErrors(es[..|es| - 1])
      && es[|es| - 1] == pair[1]
  {
    var pair := StartPair(hs[k], hs[k].onStart.value, env(t + StartCalls(hs, k)));
    var es := StartEvents(hs, env, t, k);
    StartEventsMatchRecords(hs, env, t, k);
    StartEventsNoErrors(hs, env, t, k);
    hide StartEvents, Paired, SuccessfulStarts;
    AddPair(es, pair[0], pair[1]);
    assert pair == [pair[0], pair[1]];
    assert (es + pair)[..|es + pair| - 1] == es + [pair[0]];
  }

  /**
   * Start's records are the projection of its own events: the new events are pairs, only the last one
   * can carry an error, it does so exactly when Start fails, and the records are the other pairs.
   */
  lemma StartRecordsMatchEvents(s: State, env: Callbacks)
    ensures
      var (s', err) := Start(s, env);
      s.events <= s'.events &&
      var added := s'.events[|s.events|..];
        && Paired(added)
        && s'.startRecords == SuccessfulStarts(added)
        && (err.None? ==> NoErrors(added))
        && (err.Some? ==> |added| >= 2 && NoErrors(added[..|added| - 1]) && IsFailure(added[|added| - 1], err))
  {
    hide Start, StartEvents, Paired, SuccessfulStarts, NoErrors, StartRecords;
    var k := FirstFailure(s.hooks, env, s.tick);
    var es := StartEvents(s.hooks, env, s.tick, k);
    StartOutcome(s, env);
    var added := Start(s, env).0.events[|s.events|..];
    if k == |s.hooks| {
      StartEventsMatchRecords(s.hooks, env, s.tick, k);
      StartEventsNoErrors(s.hooks, env, s.tick, k);
      assert added == es;
    } else {
      FailedEventsMatchRecords(s.hooks, env, s.tick, k);
      assert added == es + StartPair(s.hooks[k], s.hooks[k].onStart.value, env(s.tick + StartCalls(s.hooks, k)));
    }
  }

  /** Each record of Stop stands for one pair of events, failed or not, in the same order. */
  predicate StopRecordsMatch(records: seq<HookRecord>, es: seq<Event>) {
    if records == [] then es == []
    else
      && |es| >= 2
      && IsPair(es[0], es[1])
      && es[0].hookMethod == OnStop
      && es[0].caller == records[0].caller
      && es[0].func == records[0].func
      && (es[1].err.None? ==> es[1].runtime == records[0].runtime)
      && StopRecordsMatch(records[1..], es[2..])
  }

  lemma {:induction false} StopEventsMatchRecords(hs: seq<Hook>, env: Callbacks, t: nat, n: nat)
    requires n <= |hs|
    ensures StopRecordsMatch(StopRecords(hs, env, t, n), StopEvents(hs, env, t, n))
    decreases n
  {
    if n > 0 {
      if hs[n - 1].onStop.None? {
        StopEventsMatchRecords(hs, env, t, n - 1);
      } else {
        StopEventsMatchRecords(hs, env, t + 1, n - 1);
        assert StopRecords(hs, env, t, n)[1..] == StopRecords(hs, env, t + 1, n - 1);
        assert StopEvents(hs, env, t, n)[2..] == StopEvents(hs, env, t + 1, n - 1);
      }
    }
  }

  /** Stop's records match its own events one to one. */
  lemma StopRecordsMatchEvents(s: State, env: Callbacks)
    requires s.numStarted <= |s.hooks|
    ensures
      var s' := Stop(s, env).0;
      s.events <= s'.events && StopRecordsMatch(s'.stopRecords, s'.events[|s.events|..])
  {
    StopOutcome(s, s.hooks, env);
    StopEventsMatchRecords(s.hooks, env, s.tick, s.numStarted);
    hide Stop, StopEvents, StopRecords, StopRecordsMatch;
    assert Stop(s, env).0.events[|s.events|..] == StopEvents(s.hooks, env, s.tick, s.numStarted);
    assert Stop(s, env).0.stopRecords == StopRecords(s.hooks, env, s.tick, s.numStarted);
  }
}
