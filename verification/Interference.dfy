/**
 * The caller of withTimeout does not disturb the goroutine. Hooks are called with the context, so here a
 * callback may react to everything that the goroutine did and to when the context ended.
 */
module Interference {
  import opened Errors
  import opened LifecycleSpec
  import opened Timeouts

  /** What the n-th callback returns, given the steps of the goroutine and of the context before that. */
  type Reactive = (nat, seq<Action>) -> Outcome

  predicate IsCallers(a: Action) {
    a.CallerReceives? || a.CallerSeesDone? || a.CallerReads?
  }

  /** A schedule without the steps of the caller. */
  function Erased(acts: seq<Action>): seq<Action> {
    if acts == [] then [] else Kept(acts[0]) + Erased(acts[1..])
  }

  function Kept(a: Action): seq<Action> {
    if IsCallers(a) then [] else [a]
  }

  /** The outcomes that callbacks returning right after past would have. */
  function After(cb: Reactive, past: seq<Action>): Callbacks {
    (n: nat) => cb(n, past)
  }

  predicate CanReact(w: World, past: seq<Action>, acts: seq<Action>, job: Job, cb: Reactive)
    requires WorldOk(w, job)
    decreases |acts|
  {
    acts == [] ||
    (Enabled(w, acts[0]) && CanReact(Act(w, acts[0], job, After(cb, past)), past + Kept(acts[0]), acts[1..], job, cb))
  }

  /** One schedule with reactive callbacks, when past are the steps of goroutine and context so far. */
  function React(w: World, past: seq<Action>, acts: seq<Action>, job: Job, cb: Reactive): (w': World)
    requires WorldOk(w, job) && CanReact(w, past, acts, job, cb)
    ensures WorldOk(w', job)
    decreases |acts|
  {
    if acts == [] then w
    else React(Act(w, acts[0], job, After(cb, past)), past + Kept(acts[0]), acts[1..], job, cb)
  }

  // ----- Every run with reactive callbacks is a run with fixed outcomes -----

  /** The next step of the goroutine is the return of a callback. */
  predicate Returns(w: World, a: Action) {
    a.WorkerMoves? && (w.pc.StartCalling? || w.pc.StopCalling?)
  }

  /** The outcomes that the callbacks of a run return; those it does not reach are of no account. */
  function Outcomes(w: World, past: seq<Action>, acts: seq<Action>, job: Job, cb: Reactive): Callbacks
    requires WorldOk(w, job) && CanReact(w, past, acts, job, cb)
    decreases |acts|
  {
    if acts == [] then n => Outcome(None, 0, [])
    else
      var later := Outcomes(Act(w, acts[0], job, After(cb, past)), past + Kept(acts[0]), acts[1..], job, cb);
      if Returns(w, acts[0]) then (n: nat) => if n == w.s.tick then cb(n, past) else later(n)
      else later
  }

  /** A step depends on no outcome but that of the callback that returns in it, and that one is used up. */
  lemma StepUsesOneOutcome(w: World, a: Action, job: Job, env: Callbacks, env': Callbacks)
    requires WorldOk(w, job) && Enabled(w, a)
    requires Returns(w, a) ==> env(w.s.tick) == env'(w.s.tick)
    ensures Act(w, a, job, env) == Act(w, a, job, env')
    ensures Act(w, a, job, env).s.tick == w.s.tick + if Returns(w, a) then 1 else 0
  {
  }

  lemma {:induction false} RunsAgree(w: World, past: seq<Action>, acts: seq<Action>, job: Job, cb: Reactive,
                                     env: Callbacks)
    requires WorldOk(w, job) && CanReact(w, past, acts, job, cb)
    requires forall n: nat | w.s.tick <= n :: env(n) == Outcomes(w, past, acts, job, cb)(n)
    ensures CanRun(w, acts, job, env) && Run(w, acts, job, env) == React(w, past, acts, job, cb)
    decreases |acts|
  {
    hide Act, Enabled;
    if acts != [] {
      StepUsesOneOutcome(w, acts[0], job, env, After(cb, past));
      RunsAgree(Act(w, acts[0], job, After(cb, past)), past + Kept(acts[0]), acts[1..], job, cb, env);
    }
  }

  /**
   * A run whose callbacks react to the context and to anything else the goroutine did is a run with the
   * outcomes that they happened to return: whatever holds under every schedule for all outcomes holds of it.
   */
  lemma ReactiveRunIsARun(acts: seq<Action>, s0: State, job: Job, cb: Reactive)
    requires CanCall(job, s0) && CanReact(Initial(s0), [], acts, job, cb)
    ensures
      var env := Outcomes(Initial(s0), [], acts, job, cb);
      CanRun(Initial(s0), acts, job, env) && Run(Initial(s0), acts, job, env) == React(Initial(s0), [], acts, job, cb)
  {
    hide CanReact, Outcomes;
    RunsAgree(Initial(s0), [], acts, job, cb, Outcomes(Initial(s0), [], acts, job, cb));
  }

  // ----- The caller does not disturb the goroutine -----

  /** Two worlds that agree except on the caller, and perhaps on whether the result was received. */
  predicate SameExceptCaller(w: World, w': World) {
    && w.pc == w'.pc && w.s == w'.s && w.ctxErr == w'.ctxErr
    && (w.chan.Some? || w'.chan.Some? ==> w.pc.Finished?)
  }

  lemma ActWithoutCaller(w: World, w': World, a: Action, job: Job, env: Callbacks)
    requires WorldOk(w, job) && WorldOk(w', job) && SameExceptCaller(w, w') && Enabled(w, a)
    ensures
      var next := Act(w, a, job, env);
      if IsCallers(a) then SameExceptCaller(next, w')
      else Enabled(w', a) && SameExceptCaller(next, Act(w', a, job, env))
  {
    hide WorkerStep;
  }

  lemma {:induction false} ErasingKeepsGoroutine(w: World, w': World, past: seq<Action>, acts: seq<Action>, job: Job,
                                                 cb: Reactive)
    requires WorldOk(w, job) && WorldOk(w', job) && SameExceptCaller(w, w') && CanReact(w, past, acts, job, cb)
    ensures CanReact(w', past, Erased(acts), job, cb)
    ensures SameExceptCaller(React(w, past, acts, job, cb), React(w', past, Erased(acts), job, cb))
    decreases |acts|
  {
    hide Act, Enabled, SameExceptCaller;
    if acts != [] {
      var a, rest, env := acts[0], acts[1..], After(cb, past);
      ActWithoutCaller(w, w', a, job, env);
      if IsCallers(a) {
        assert past + Kept(a) == past;
        assert Erased(acts) == Erased(rest);
        ErasingKeepsGoroutine(Act(w, a, job, env), w', past, rest, job, cb);
      } else {
        assert Erased(acts)[0] == a && Erased(acts)[1..] == Erased(rest);
        ErasingKeepsGoroutine(Act(w, a, job, env), Act(w', a, job, env), past + [a], rest, job, cb);
      }
    }
  }

  /**
   * Taking every step of the caller out of a schedule leaves a schedule, in which the goroutine ends up at
   * the same place, with the same lifecycle and context, even if the callbacks react to the context.
   */
  lemma CallerDoesNotInterfere(acts: seq<Action>, s0: State, job: Job, cb: Reactive)
    requires CanCall(job, s0) && CanReact(Initial(s0), [], acts, job, cb)
    ensures CanReact(Initial(s0), [], Erased(acts), job, cb)
    ensures
      var w, undisturbed := React(Initial(s0), [], acts, job, cb), React(Initial(s0), [], Erased(acts), job, cb);
      w.pc == undisturbed.pc && w.s == undisturbed.s && w.ctxErr == undisturbed.ctxErr
  {
    hide CanReact, React;
    ErasingKeepsGoroutine(Initial(s0), Initial(s0), [], acts, job, cb);
  }

  // ----- Given the outcomes, only the number of steps matters -----

  /** The goroutine after n steps of its own, alone in the world. */
  function Alone(w: World, n: nat, job: Job, env: Callbacks): (w': World)
    requires WorldOk(w, job) && w.chan.None? && w.caller.Selecting?
    ensures WorldOk(w', job)
    decreases n
  {
    if n == 0 then w
    else
      var before := Alone(w, n - 1, job, env);
      if Enabled(before, WorkerMoves) then Act(before, WorkerMoves, job, env) else before
  }

  /**
   * Once the outcomes of the callbacks are given, the lifecycle and the goroutine's position depend only on
   * how many steps the goroutine took.
   */
  lemma {:induction false} OutcomesFixTheGoroutine(acts: seq<Action>, s0: State, job: Job, env: Callbacks)
    requires CanCall(job, s0) && CanRun(Initial(s0), acts, job, env)
    ensures
      var w, alone := Run(Initial(s0), acts, job, env), Alone(Initial(s0), Moves(acts), job, env);
      w.pc == alone.pc && w.s == alone.s
    decreases |acts|
  {
    hide Run, CanRun, WorkerStep, Act, Enabled;
    RunNothing(Initial(s0), job, env);
    if acts != [] {
      var before, a := acts[..|acts| - 1], acts[|acts| - 1];
      assert before + [a] == acts;
      RunLast(Initial(s0), before, a, job, env);
      OutcomesFixTheGoroutine(before, s0, job, env);
      AloneHoldsResult(s0, Moves(before), job, env);
      SameGoroutine(Run(Initial(s0), before, job, env), Alone(Initial(s0), Moves(before), job, env), a, job, env);
    }
  }

  lemma SameGoroutine(w: World, alone: World, a: Action, job: Job, env: Callbacks)
    requires WorldOk(w, job) && WorldOk(alone, job) && w.pc == alone.pc && w.s == alone.s
    requires Enabled(w, a) && (alone.chan.Some? ==> alone.pc.Finished?)
    ensures
      var w' := Act(w, a, job, env);
      if a.WorkerMoves?
      then Enabled(alone, a) && Act(alone, a, job, env).pc == w'.pc && Act(alone, a, job, env).s == w'.s
      else w'.pc == w.pc && w'.s == w.s
  {
    hide WorkerStep;
  }

  lemma {:induction false} AloneHoldsResult(s0: State, n: nat, job: Job, env: Callbacks)
    requires CanCall(job, s0)
    ensures
      var w := Alone(Initial(s0), n, job, env);
      w.caller.Selecting? && (w.chan.Some? ==> w.pc.Finished?)
  {
    if n > 0 {
      AloneHoldsResult(s0, n - 1, job, env);
      hide WorkerStep;
    }
  }
}
