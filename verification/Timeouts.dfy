/**
 * withTimeout: a goroutine runs App.start or Lifecycle.Stop and sends its error to a channel of capacity
 * one, while the caller waits for that error or for its context, and after a deadline reads the records
 * and the running hook of a lifecycle that may still be moving. Every step below is one access to shared
 * state, and steps of the goroutine, the caller and the context interleave freely.
 */
module Timeouts {
  import opened Errors
  import opened Events
  import opened LifecycleSpec
  import opened LifecycleFacts
  import opened AppSpec

  datatype Job = StartJob(initErr: Option<Error>) | StopJob

  /**
   * Where the goroutine is. A constructor names what it is about to do; rollback holds the start error
   * while Stop runs as a rollback.
   */
  datatype Pc =
    | Entry
    | StartLoop(snap: seq<Hook>, i: nat)
    | StartAnnounced(snap: seq<Hook>, i: nat)
    | StartCalling(snap: seq<Hook>, i: nat)
    | StartFailing(snap: seq<Hook>, i: nat, out: Outcome)
    | StartRecording(snap: seq<Hook>, i: nat, out: Outcome)
    | StartRecorded(snap: seq<Hook>, i: nat, out: Outcome)
    | StartCounting(snap: seq<Hook>, i: nat)
    | StartDone
    | RollingBack(err: Error)
    | StopEntry(rollback: Option<Error>)
    | StopLoop(rollback: Option<Error>, errs: seq<Error>)
    | StopAnnounced(rollback: Option<Error>, errs: seq<Error>)
    | StopCalling(rollback: Option<Error>, errs: seq<Error>)
    | StopFailing(rollback: Option<Error>, errs: seq<Error>, out: Outcome)
    | StopRecording(rollback: Option<Error>, errs: seq<Error>, out: Outcome)
    | StopCounting(rollback: Option<Error>, errs: seq<Error>)
    | StopDone(rollback: Option<Error>, errs: seq<Error>)
    | Sending(result: Option<Error>)
    | Finished(result: Option<Error>)

  /** The goroutine is inside Start: after it reset the start records, before any rollback. */
  predicate InStart(pc: Pc) {
    pc.StartLoop? || pc.StartAnnounced? || pc.StartCalling? || pc.StartFailing? || pc.StartRecording? ||
    pc.StartRecorded? || pc.StartCounting?
  }

  /** The goroutine is at a hook with an OnStart callback. */
  predicate AtStartCallback(pc: Pc) {
    InStart(pc) && !pc.StartLoop? && !pc.StartCounting?
  }

  predicate InStop(pc: Pc) {
    pc.StopEntry? || pc.StopLoop? || pc.StopAnnounced? || pc.StopCalling? || pc.StopFailing? ||
    pc.StopRecording? || pc.StopCounting? || pc.StopDone?
  }

  /** The goroutine is at a hook with an OnStop callback. */
  predicate AtStopCallback(pc: Pc) {
    pc.StopAnnounced? || pc.StopCalling? || pc.StopFailing? || pc.StopRecording?
  }

  /** What the program counter guarantees about the lifecycle. */
  predicate PcOk(pc: Pc, s: State) {
    && (pc.Entry? || pc.RollingBack? || InStop(pc) ==> s.numStarted <= |s.hooks|)
    && (InStart(pc) ==> pc.snap <= s.hooks && s.numStarted == pc.i <= |pc.snap|)
    && (InStart(pc) && !pc.StartLoop? ==> pc.i < |pc.snap|)
    && (AtStartCallback(pc) ==> pc.snap[pc.i].onStart.Some?)
    && (pc.StartFailing? ==> pc.out.err.Some?)
    && (pc.StartRecording? || pc.StartRecorded? ==> pc.out.err.None?)
    && (AtStopCallback(pc) || pc.StopCounting? ==> s.numStarted > 0)
    && (AtStopCallback(pc) ==> s.hooks[s.numStarted - 1].onStop.Some?)
    && (pc.StopFailing? ==> pc.out.err.Some?)
  }

  // ----- The goroutine -----

  function StartStep(pc: Pc, s: State, env: Callbacks): (r: (Pc, State))
    requires PcOk(pc, s) && InStart(pc)
    ensures PcOk(r.0, r.1) && !r.0.Entry?
  {
    var snap, i := pc.snap, pc.i;
    match pc
    case StartLoop(_, _) =>
      if i == |snap| then (StartDone, s)
      else if snap[i].onStart.None? then (StartCounting(snap, i), s)
      else (StartAnnounced(snap, i), s.Log(HookExecuting(OnStart, snap[i].caller, snap[i].onStart.value)))
    case StartAnnounced(_, _) =>
      (StartCalling(snap, i), s.Begin(StartCall(i), snap[i]))
    case StartCalling(_, _) =>
      var out := env(s.tick);
      (if out.err.Some? then StartFailing(snap, i, out) else StartRecording(snap, i, out), s.Return(out))
    case StartFailing(_, _, out) =>
      (RollingBack(out.err.value),
       s.Log(HookExecuted(OnStart, snap[i].caller, snap[i].onStart.value, out.runtime, out.err)))
    case StartRecording(_, _, out) =>
      (StartRecorded(snap, i, out), s.RecordStart(HookRecord(snap[i].caller, snap[i].onStart.value, out.runtime)))
    case StartRecorded(_, _, out) =>
      (StartCounting(snap, i),
       s.Log(HookExecuted(OnStart, snap[i].caller, snap[i].onStart.value, out.runtime, out.err)))
    case StartCounting(_, _) =>
      (StartLoop(snap, i + 1), s.CountUp(i))
  }

  function StopStep(pc: Pc, s: State, env: Callbacks): (r: (Pc, State))
    requires PcOk(pc, s) && InStop(pc)
    ensures PcOk(r.0, r.1) && !r.0.Entry?
  {
    match pc
    case StopEntry(rb) =>
      (StopLoop(rb, []), s.(stopRecords := []))
    case StopLoop(rb, errs) =>
      if s.numStarted == 0 then (StopDone(rb, errs), s)
      else
        var h := s.hooks[s.numStarted - 1];
        if h.onStop.None? then (StopCounting(rb, errs), s)
        else (StopAnnounced(rb, errs), s.Log(HookExecuting(OnStop, h.caller, h.onStop.value)))
    case StopAnnounced(rb, errs) =>
      (StopCalling(rb, errs), s.Begin(StopCall(s.numStarted - 1), s.hooks[s.numStarted - 1]))
    case StopCalling(rb, errs) =>
      var out := env(s.tick);
      (if out.err.Some? then StopFailing(rb, errs, out) else StopRecording(rb, errs, out), s.Return(out))
    case StopFailing(rb, errs, out) =>
      var h := s.hooks[s.numStarted - 1];
      (StopRecording(rb, errs + [out.err.value], out),
       s.Log(HookExecuted(OnStop, h.caller, h.onStop.value, 0, out.err)))
    case StopRecording(rb, errs, out) =>
      // one critical section: the record, and the event of a callback that succeeded
      var h := s.hooks[s.numStarted - 1];
      var recorded := s.RecordStop(HookRecord(h.caller, h.onStop.value, out.runtime));
      (StopCounting(rb, errs),
       if out.err.Some? then recorded
       else recorded.Log(HookExecuted(OnStop, h.caller, h.onStop.value, out.runtime, None)))
    case StopCounting(rb, errs) =>
      (StopLoop(rb, errs), s.CountDown())
    case StopDone(rb, errs) =>
      var (s', result) := FinishStop(rb, s, errs);
      (Sending(result), s')
  }

  /** What follows Stop: nothing, or the end of a rollback. */
  function FinishStop(rollback: Option<Error>, s: State, errs: seq<Error>): (State, Option<Error>) {
    var stopErr := CombineErrors(errs);
    if rollback.None? then (s, stopErr)
    else if stopErr.None? then (s, rollback)
    else (s.Log(RollbackError(stopErr.value)), Append(rollback, stopErr))
  }

  /** One step of the goroutine, until it has its result. */
  function WorkerStep(pc: Pc, s: State, job: Job, env: Callbacks): (r: (Pc, State))
    requires PcOk(pc, s) && !pc.Sending? && !pc.Finished? && (pc.Entry? && job.StartJob? ==> s.numStarted == 0)
    ensures PcOk(r.0, r.1) && !r.0.Entry?
  {
    if InStart(pc) then StartStep(pc, s, env)
    else if InStop(pc) then StopStep(pc, s, env)
    else
      match pc
      case Entry =>
        (match job
         case StopJob => (StopEntry(None), s)
         case StartJob(Some(e)) => (Sending(Some(e)), s)
         case StartJob(None) => (StartLoop(s.hooks, 0), s.(startRecords := [])))
      case StartDone => (Sending(None), s.Log(Running))
      case RollingBack(err) => (StopEntry(Some(err)), s.Log(Rollback(err)))
  }

  // ----- What the goroutine computes -----

  /** The callback as one sequential call. */
  function Callback(job: Job, s: State, env: Callbacks): (State, Option<Error>)
    requires s.numStarted <= |s.hooks| && (job.StartJob? ==> s.numStarted == 0)
  {
    match job
    case StartJob(initErr) => AppStart(s, initErr, env)
    case StopJob => Stop(s, env)
  }

  function FinishStart(r: (State, Option<Error>), env: Callbacks): (State, Option<Error>)
    requires r.0.numStarted <= |r.0.hooks|
  {
    if r.1.Some? then RollBack(r.0, r.1.value, env) else (r.0.Log(Running), None)
  }

  function FinishStopFrom(rollback: Option<Error>, s: State, errs: seq<Error>, env: Callbacks): (State, Option<Error>)
    requires s.numStarted <= |s.hooks|
  {
    var r := StopFrom(s, errs, env);
    FinishStop(rollback, r.0, r.1)
  }

  /** Start's loop run to its end, after hook i was dealt with, ending in s or failing with err. */
  function AfterStartHook(s: State, snap: seq<Hook>, i: nat, err: Option<Error>, env: Callbacks): (State, Option<Error>)
    requires i < |snap| && snap <= s.hooks && s.numStarted == i
  {
    if err.Some? then RollBack(s, err.value, env)
    else FinishStart(StartFrom(s.CountUp(i), snap, i + 1, env), env)
  }

  /** Running Start, and what follows it, to the end from inside Start. */
  function CompleteStart(pc: Pc, s: State, env: Callbacks): (State, Option<Error>)
    requires PcOk(pc, s) && InStart(pc)
  {
    var snap, i := pc.snap, pc.i;
    match pc
    case StartLoop(_, _) => FinishStart(StartFrom(s, snap, i, env), env)
    case StartAnnounced(_, _) =>
      var out := env(s.tick);
      AfterStartHook(
        StartReturned(s.Begin(StartCall(i), snap[i]), snap[i], snap[i].onStart.value, out), snap, i, out.err, env)
    case StartCalling(_, _) =>
      var out := env(s.tick);
      AfterStartHook(StartReturned(s, snap[i], snap[i].onStart.value, out), snap, i, out.err, env)
    case StartFailing(_, _, out) => AfterStartHook(StartStep(pc, s, env).1, snap, i, out.err, env)
    case StartRecording(_, _, out) =>
      var recorded := StartStep(pc, s, env);
      AfterStartHook(StartStep(recorded.0, recorded.1, env).1, snap, i, None, env)
    case StartRecorded(_, _, out) => AfterStartHook(StartStep(pc, s, env).1, snap, i, None, env)
    case StartCounting(_, _) => AfterStartHook(s, snap, i, None, env)
  }

  /** Running Stop, and what follows it, to the end from inside Stop. */
  function CompleteStop(pc: Pc, s: State, env: Callbacks): (State, Option<Error>)
    requires PcOk(pc, s) && InStop(pc)
  {
    var rb := pc.rollback;
    match pc
    case StopEntry(_) => FinishStopFrom(rb, s.(stopRecords := []), [], env)
    case StopLoop(_, errs) => FinishStopFrom(rb, s, errs, env)
    case StopAnnounced(_, errs) =>
      var out, h := env(s.tick), s.hooks[s.numStarted - 1];
      var returned := StopReturned(s.Begin(StopCall(s.numStarted - 1), h), h, h.onStop.value, out);
      FinishStopFrom(rb, returned.CountDown(), errs + AsList(out.err), env)
    case StopCalling(_, errs) =>
      var out, h := env(s.tick), s.hooks[s.numStarted - 1];
      FinishStopFrom(rb, StopReturned(s, h, h.onStop.value, out).CountDown(), errs + AsList(out.err), env)
    case StopFailing(_, errs, out) =>
      var recording := StopStep(pc, s, env);
      FinishStopFrom(rb, StopStep(recording.0, recording.1, env).1.CountDown(), errs + AsList(out.err), env)
    case StopRecording(_, errs, out) => FinishStopFrom(rb, StopStep(pc, s, env).1.CountDown(), errs, env)
    case StopCounting(_, errs) => FinishStopFrom(rb, s.CountDown(), errs, env)
    case StopDone(_, errs) => FinishStop(rb, s, errs)
  }

  /** Running the goroutine to its end from a program counter on, sequentially. */
  function Complete(pc: Pc, s: State, job: Job, env: Callbacks): (State, Option<Error>)
    requires PcOk(pc, s) && (pc.Entry? && job.StartJob? ==> s.numStarted == 0)
  {
    if InStart(pc) then CompleteStart(pc, s, env)
    else if InStop(pc) then CompleteStop(pc, s, env)
    else
      match pc
      case Entry => Callback(job, s, env)
      case StartDone => (s.Log(Running), None)
      case RollingBack(err) => RollBack(s, err, env)
      case Sending(result) => (s, result)
      case Finished(result) => (s, result)
  }

  lemma StartLoopRefines(pc: Pc, s: State, env: Callbacks)
    requires PcOk(pc, s) && InStart(pc) && !AtStartCallback(pc)
    ensures
      var (pc', s') := StartStep(pc, s, env);
      if InStart(pc') then CompleteStart(pc', s', env) == CompleteStart(pc, s, env)
      else pc' == StartDone && CompleteStart(pc, s, env) == (s'.Log(Running), None)
  {
    hide RollBack;
  }

  lemma StartCallbackRefines(pc: Pc, s: State, env: Callbacks)
    requires PcOk(pc, s) && AtStartCallback(pc)
    ensures
      var (pc', s') := StartStep(pc, s, env);
      if InStart(pc') then CompleteStart(pc', s', env) == CompleteStart(pc, s, env)
      else pc'.RollingBack? && CompleteStart(pc, s, env) == RollBack(s', pc'.err, env)
  {
    hide RollBack, FinishStart;
  }

  lemma StartStepRefines(pc: Pc, s: State, job: Job, env: Callbacks)
    requires PcOk(pc, s) && InStart(pc)
    ensures
      var (pc', s') := StartStep(pc, s, env);
      Complete(pc', s', job, env) == Complete(pc, s, job, env)
  {
    hide CompleteStart, StartStep, RollBack;
    if AtStartCallback(pc) {
      StartCallbackRefines(pc, s, env);
    } else {
      StartLoopRefines(pc, s, env);
    }
  }

  lemma StopLoopRefines(pc: Pc, s: State, env: Callbacks)
    requires PcOk(pc, s) && InStop(pc) && !AtStopCallback(pc) && !pc.StopDone?
    ensures var (pc', s') := StopStep(pc, s, env); CompleteStop(pc', s', env) == CompleteStop(pc, s, env)
  {
    hide FinishStop;
    if pc.StopLoop? {
      assert pc.errs + [] == pc.errs;
    }
  }

  lemma StopCallbackRefines(pc: Pc, s: State, env: Callbacks)
    requires PcOk(pc, s) && AtStopCallback(pc)
    ensures var (pc', s') := StopStep(pc, s, env); CompleteStop(pc', s', env) == CompleteStop(pc, s, env)
  {
    hide FinishStopFrom;
    assert pc.errs + [] == pc.errs;
  }

  lemma StopDoneRefines(pc: Pc, s: State, env: Callbacks)
    requires PcOk(pc, s) && pc.StopDone?
    ensures
      var (pc', s') := StopStep(pc, s, env);
      pc' == Sending(pc'.result) && (s', pc'.result) == CompleteStop(pc, s, env)
  {
    hide FinishStop;
  }

  lemma StopStepStays(pc: Pc, s: State, env: Callbacks)
    requires PcOk(pc, s) && InStop(pc) && !pc.StopDone?
    ensures InStop(StopStep(pc, s, env).0)
  {
  }

  lemma StopStepRefines(pc: Pc, s: State, job: Job, env: Callbacks)
    requires PcOk(pc, s) && InStop(pc)
    ensures
      var (pc', s') := StopStep(pc, s, env);
      Complete(pc', s', job, env) == Complete(pc, s, job, env)
  {
    hide StopStep, CompleteStop;
    if pc.StopDone? {
      StopDoneRefines(pc, s, env);
    } else {
      StopStepStays(pc, s, env);
      if AtStopCallback(pc) {
        StopCallbackRefines(pc, s, env);
      } else {
        StopLoopRefines(pc, s, env);
      }
    }
  }

  /** No step of the goroutine changes what the whole callback computes. */
  lemma WorkerStepRefines(pc: Pc, s: State, job: Job, env: Callbacks)
    requires PcOk(pc, s) && !pc.Sending? && !pc.Finished? && (pc.Entry? && job.StartJob? ==> s.numStarted == 0)
    ensures
      var (pc', s') := WorkerStep(pc, s, job, env);
      Complete(pc', s', job, env) == Complete(pc, s, job, env)
  {
    if InStart(pc) {
      StartStepRefines(pc, s, job, env);
    } else if InStop(pc) {
      StopStepRefines(pc, s, job, env);
    } else {
      hide StopFrom, StartFrom;
    }
  }

  // ----- The goroutine and its caller -----

  datatype Answer =
    | Direct(err: Option<Error>)
    | TimedOut(caller: string, records: seq<HookRecord>)   // never nil: it wraps DeadlineExceeded

  datatype Caller =
    | Selecting
    | Reporting
    | HasRecords(records: seq<HookRecord>)
    | Returned(answer: Answer)

  /** chan is what the channel holds; ctxErr is ctx.Err(), nil until the context is done. */
  datatype World = World(pc: Pc, s: State, chan: Option<Option<Error>>, ctxErr: Option<Error>, caller: Caller)

  datatype Action = WorkerMoves | ContextEnds(err: Error) | CallerReceives | CallerSeesDone | CallerReads

  function Initial(s: State): World {
    World(Entry, s, None, None, Selecting)
  }

  /** What an action needs; a send blocks while the channel is full. */
  predicate Enabled(w: World, a: Action) {
    match a
    case WorkerMoves => !w.pc.Finished? && (w.pc.Sending? ==> w.chan.None?)
    case ContextEnds(_) => w.ctxErr.None?
    case CallerReceives => w.caller.Selecting? && w.chan.Some?
    case CallerSeesDone => w.caller.Selecting? && w.ctxErr.Some?
    case CallerReads => w.caller.Reporting? || w.caller.HasRecords?
  }

  predicate WorldOk(w: World, job: Job) {
    PcOk(w.pc, w.s) && (w.pc.Entry? && job.StartJob? ==> w.s.numStarted == 0)
  }

  /** What the caller does with the error it selected. */
  function Select(err: Option<Error>): Caller {
    if err == Some(DeadlineExceeded) then Reporting else Returned(Direct(err))
  }

  function Act(w: World, a: Action, job: Job, env: Callbacks): (w': World)
    requires WorldOk(w, job) && Enabled(w, a)
    ensures WorldOk(w', job)
  {
    match a
    case WorkerMoves =>
      if w.pc.Sending? then w.(pc := Finished(w.pc.result), chan := Some(w.pc.result))
      else
        var (pc', s') := WorkerStep(w.pc, w.s, job, env);
        w.(pc := pc', s := s')
    case ContextEnds(err) => w.(ctxErr := Some(err))
    case CallerReceives => w.(chan := None, caller := Select(w.chan.value))
    case CallerSeesDone => w.(caller := Select(w.ctxErr))
    case CallerReads =>
      if w.caller.Reporting?
      then w.(caller := HasRecords(if job.StartJob? then w.s.startRecords else w.s.stopRecords))
      else w.(caller := Returned(TimedOut(w.s.running.caller, w.caller.records)))
  }

  predicate CanRun(w: World, acts: seq<Action>, job: Job, env: Callbacks)
    requires WorldOk(w, job)
    decreases |acts|
  {
    acts == [] || (Enabled(w, acts[0]) && CanRun(Act(w, acts[0], job, env), acts[1..], job, env))
  }

  /** One schedule: the given actions, one after the other. */
  function Run(w: World, acts: seq<Action>, job: Job, env: Callbacks): (w': World)
    requires WorldOk(w, job) && CanRun(w, acts, job, env)
    ensures WorldOk(w', job)
    decreases |acts|
  {
    if acts == [] then w else Run(Act(w, acts[0], job, env), acts[1..], job, env)
  }

  // ----- Every interleaving -----

  predicate CanCall(job: Job, s: State) {
    s.numStarted <= |s.hooks| && (job.StartJob? ==> s.numStarted == 0)
  }

  /** Where the caller's error comes from: the goroutine, once it finished, or the context. */
  predicate CallerOk(w: World) {
    match w.caller
    case Selecting => true
    case Returned(Direct(err)) =>
      err != Some(DeadlineExceeded) && (w.pc == Finished(err) || (err.Some? && w.ctxErr == err))
    case _ => w.pc == Finished(Some(DeadlineExceeded)) || w.ctxErr == Some(DeadlineExceeded)
  }

  /** What holds in every world reached from a call with lifecycle s0. */
  predicate Inv(w: World, s0: State, job: Job, env: Callbacks)
    requires CanCall(job, s0)
  {
    && WorldOk(w, job)
    && Complete(w.pc, w.s, job, env) == Callback(job, s0, env)
    && (w.chan.Some? ==> w.pc == Finished(w.chan.value))
    && (w.pc.Finished? && w.caller.Selecting? ==> w.chan == Some(w.pc.result))
    && CallerOk(w)
  }

  /** The goroutine finishes only by sending. */
  lemma StepDoesNotFinish(pc: Pc, s: State, job: Job, env: Callbacks)
    requires PcOk(pc, s) && !pc.Sending? && !pc.Finished? && (pc.Entry? && job.StartJob? ==> s.numStarted == 0)
    ensures !WorkerStep(pc, s, job, env).0.Finished?
  {
  }

  lemma ActKeepsInv(w: World, a: Action, s0: State, job: Job, env: Callbacks)
    requires CanCall(job, s0) && Inv(w, s0, job, env) && Enabled(w, a)
    ensures Inv(Act(w, a, job, env), s0, job, env)
  {
    hide Callback, CompleteStart, CompleteStop, RollBack, WorkerStep;
    if a.WorkerMoves? && !w.pc.Sending? {
      WorkerStepRefines(w.pc, w.s, job, env);
      StepDoesNotFinish(w.pc, w.s, job, env);
      hide Complete;
    }
  }

  lemma {:induction false} RunKeepsInv(w: World, acts: seq<Action>, s0: State, job: Job, env: Callbacks)
    requires CanCall(job, s0) && Inv(w, s0, job, env) && CanRun(w, acts, job, env)
    ensures Inv(Run(w, acts, job, env), s0, job, env)
    decreases |acts|
  {
    if acts != [] {
      ActKeepsInv(w, acts[0], s0, job, env);
      hide Inv, Act;
      RunKeepsInv(Act(w, acts[0], job, env), acts[1..], s0, job, env);
    }
  }

  /**
   * Under every schedule the goroutine is never blocked, not even on its one send, and once it finished
   * the lifecycle and its result are those of the sequential callback, whatever the caller did meanwhile.
   */
  lemma WorkerIsNeverBlocked(acts: seq<Action>, s0: State, job: Job, env: Callbacks)
    requires CanCall(job, s0) && CanRun(Initial(s0), acts, job, env)
    ensures
      var w := Run(Initial(s0), acts, job, env);
      && (w.pc.Finished? || Enabled(w, WorkerMoves))
      && (w.pc.Finished? ==> (w.s, w.pc.result) == Callback(job, s0, env))
  {
    hide Callback, CompleteStart, CompleteStop;
    RunKeepsInv(Initial(s0), acts, s0, job, env);
    hide Run;
  }

  /**
   * An error that is answered as it is is never DeadlineExceeded, and is what the callback returns, or what
   * the context ended with; a caller reports only if one of the two is DeadlineExceeded.
   */
  lemma AnswersAre(acts: seq<Action>, s0: State, job: Job, env: Callbacks)
    requires CanCall(job, s0) && CanRun(Initial(s0), acts, job, env)
    ensures
      var w, result := Run(Initial(s0), acts, job, env), Callback(job, s0, env).1;
      match w.caller
      case Selecting => true
      case Returned(Direct(err)) =>
        && err != Some(DeadlineExceeded)
        && ((w.pc.Finished? && err == result) || (err.Some? && err == w.ctxErr))
      case _ => (w.pc.Finished? && result == Some(DeadlineExceeded)) || w.ctxErr == Some(DeadlineExceeded)
  {
    hide Callback, CompleteStart, CompleteStop;
    RunKeepsInv(Initial(s0), acts, s0, job, env);
    hide Run;
  }

  /** If App.Start returns nil, every hook present on entry started and Running was logged last. */
  lemma StartNilMeansRunning(acts: seq<Action>, s0: State, initErr: Option<Error>, env: Callbacks)
    requires s0.numStarted == 0 && CanRun(Initial(s0), acts, StartJob(initErr), env)
    requires Run(Initial(s0), acts, StartJob(initErr), env).caller == Returned(Direct(None))
    ensures
      var w := Run(Initial(s0), acts, StartJob(initErr), env);
      && initErr.None?
      && w.pc == Finished(None)
      && w.s == AppStart(s0, None, env).0
      && FirstFailure(s0.hooks, env, s0.tick) == |s0.hooks|
      && w.s.numStarted == |s0.hooks|
      && w.s.trace == s0.trace + StartTrace(s0.hooks, |s0.hooks|)
      && w.s.events == s0.events + StartEvents(s0.hooks, env, s0.tick, |s0.hooks|) + [Running]
  {
    hide AppStart, CompleteStart, CompleteStop, StartTrace, StartEvents, StopTrace;
    RunKeepsInv(Initial(s0), acts, s0, StartJob(initErr), env);
    hide Run;
    assert initErr.None? by {
      if initErr.Some? {
        InitErrorIsReturned(s0, initErr, env);
      }
    }
    if FirstFailure(s0.hooks, env, s0.tick) < |s0.hooks| {
      StartIsAllOrNothing(s0, env);
    } else {
      StartSucceeds(s0, env);
    }
  }

  lemma InitErrorIsReturned(s: State, initErr: Option<Error>, env: Callbacks)
    requires s.numStarted == 0 && initErr.Some?
    ensures AppStart(s, initErr, env) == (s, initErr)
  {
  }

  /** If App.Stop returns nil, nothing counts as started any more and no OnStop callback failed. */
  lemma StopNilMeansStopped(acts: seq<Action>, s0: State, env: Callbacks)
    requires s0.numStarted <= |s0.hooks| && CanRun(Initial(s0), acts, StopJob, env)
    requires Run(Initial(s0), acts, StopJob, env).caller == Returned(Direct(None))
    ensures
      var w := Run(Initial(s0), acts, StopJob, env);
      && w.pc == Finished(None)
      && w.s.numStarted == 0
      && w.s.trace == s0.trace + StopTrace(s0.hooks, s0.numStarted)
      && CallErrors(env, s0.tick, StopCalls(s0.hooks, s0.numStarted)) == []
  {
    hide Stop, CompleteStart, CompleteStop, StopTrace, StopCalls, CallErrors;
    RunKeepsInv(Initial(s0), acts, s0, StopJob, env);
    hide Run;
    StopOutcome(s0, s0.hooks, env);
  }

  // ----- Schedules -----

  function Moves(acts: seq<Action>): nat {
    if acts == [] then 0 else Moves(acts[..|acts| - 1]) + if acts[|acts| - 1].WorkerMoves? then 1 else 0
  }

  lemma RunNothing(w: World, job: Job, env: Callbacks)
    requires WorldOk(w, job)
    ensures CanRun(w, [], job, env) && Run(w, [], job, env) == w
  {
  }

  lemma {:induction false} RunLast(w: World, acts: seq<Action>, a: Action, job: Job, env: Callbacks)
    requires WorldOk(w, job) && CanRun(w, acts + [a], job, env)
    ensures CanRun(w, acts, job, env) && Enabled(Run(w, acts, job, env), a)
    ensures Run(w, acts + [a], job, env) == Act(Run(w, acts, job, env), a, job, env)
    decreases |acts|
  {
    var all := acts + [a];
    if acts == [] {
      assert all[0] == a && all[1..] == [];
    } else {
      assert all[0] == acts[0] && all[1..] == acts[1..] + [a];
      hide Act;
      RunLast(Act(w, acts[0], job, env), acts[1..], a, job, env);
    }
  }

  lemma RunFirst(w: World, acts: seq<Action>, job: Job, env: Callbacks)
    requires WorldOk(w, job) && acts != [] && Enabled(w, acts[0])
    requires CanRun(Act(w, acts[0], job, env), acts[1..], job, env)
    ensures CanRun(w, acts, job, env)
    ensures Run(w, acts, job, env) == Run(Act(w, acts[0], job, env), acts[1..], job, env)
  {
  }

  lemma RunOne(w: World, a: Action, job: Job, env: Callbacks)
    requires WorldOk(w, job) && Enabled(w, a)
    ensures CanRun(w, [a], job, env) && Run(w, [a], job, env) == Act(w, a, job, env)
  {
    hide Act, Enabled;
    RunNothing(Act(w, a, job, env), job, env);
    assert [a][1..] == [];
  }

  lemma {:induction false} RunConcat(w: World, acts: seq<Action>, more: seq<Action>, job: Job, env: Callbacks)
    requires WorldOk(w, job) && CanRun(w, acts, job, env) && CanRun(Run(w, acts, job, env), more, job, env)
    ensures CanRun(w, acts + more, job, env)
    ensures Run(w, acts + more, job, env) == Run(Run(w, acts, job, env), more, job, env)
    decreases |acts|
  {
    if acts == [] {
      assert acts + more == more;
    } else {
      assert (acts + more)[1..] == acts[1..] + more;
      hide Act, Enabled;
      RunConcat(Act(w, acts[0], job, env), acts[1..], more, job, env);
    }
  }

  // ----- The goroutine comes to an end -----

  /** An upper bound on the steps the goroutine still takes. */
  function Rank(pc: Pc, s: State, job: Job): nat
    requires PcOk(pc, s)
  {
    if InStart(pc) then
      var top := 7 * |pc.snap| + 6 + 6 * (|pc.snap| - pc.i);
      match pc
      case StartLoop(_, _) => top + 1
      case StartAnnounced(_, _) => top
      case StartCalling(_, _) => top - 1
      case StartFailing(_, _, _) => top - 2
      case StartRecording(_, _, _) => top - 2
      case StartRecorded(_, _, _) => top - 3
      case StartCounting(_, _) => top - 4
    else if InStop(pc) then
      var top := 7 * s.numStarted;
      match pc
      case StopEntry(_) => top + 4
      case StopLoop(_, _) => top + 3
      case StopAnnounced(_, _) => top + 2
      case StopCalling(_, _) => top + 1
      case StopFailing(_, _, _) => top
      case StopRecording(_, _, _) => top - 1
      case StopCounting(_, _) => top - 2
      case StopDone(_, _) => 2
    else
      match pc
      case Entry => if job.StopJob? then 7 * s.numStarted + 5 else 13 * |s.hooks| + 8
      case StartDone => 2
      case RollingBack(_) => 7 * s.numStarted + 5
      case Sending(_) => 1
      case Finished(_) => 0
  }

  lemma StartStepLowersRank(pc: Pc, s: State, job: Job, env: Callbacks)
    requires PcOk(pc, s) && InStart(pc)
    ensures var (pc', s') := StartStep(pc, s, env); Rank(pc', s', job) < Rank(pc, s, job)
  {
  }

  lemma StopStepLowersRank(pc: Pc, s: State, job: Job, env: Callbacks)
    requires PcOk(pc, s) && InStop(pc)
    ensures var (pc', s') := StopStep(pc, s, env); Rank(pc', s', job) < Rank(pc, s, job)
  {
  }

  lemma StepLowersRank(w: World, job: Job, env: Callbacks)
    requires WorldOk(w, job) && Enabled(w, WorkerMoves)
    ensures
      var w' := Act(w, WorkerMoves, job, env);
      Rank(w'.pc, w'.s, job) < Rank(w.pc, w.s, job)
  {
    hide StartStep, StopStep;
    if InStart(w.pc) {
      StartStepLowersRank(w.pc, w.s, job, env);
    } else if InStop(w.pc) {
      StopStepLowersRank(w.pc, w.s, job, env);
    }
  }

  /**
   * However many hooks the callbacks append, the goroutine finishes: the steps it took and the bound on
   * those left never exceed the bound on entry, which depends on the hooks present on entry alone.
   */
  lemma {:induction false} WorkerEnds(acts: seq<Action>, s0: State, job: Job, env: Callbacks)
    requires CanCall(job, s0) && CanRun(Initial(s0), acts, job, env)
    ensures
      var w := Run(Initial(s0), acts, job, env);
      Moves(acts) + Rank(w.pc, w.s, job) <= 13 * |s0.hooks| + 8
    decreases |acts|
  {
    hide Run, CanRun, WorkerStep, Enabled;
    RunNothing(Initial(s0), job, env);
    if acts != [] {
      var before, a := acts[..|acts| - 1], acts[|acts| - 1];
      assert before + [a] == acts;
      RunLast(Initial(s0), before, a, job, env);
      WorkerEnds(before, s0, job, env);
      var w := Run(Initial(s0), before, job, env);
      if a.WorkerMoves? {
        StepLowersRank(w, job, env);
      }
    }
  }

  // ----- The caller gets its answer -----

  lemma InitialInv(s0: State, job: Job, env: Callbacks)
    requires CanCall(job, s0)
    ensures Inv(Initial(s0), s0, job, env)
  {
  }

  lemma RunMore(w: World, acts: seq<Action>, a: Action, job: Job, env: Callbacks)
    requires WorldOk(w, job) && CanRun(w, acts, job, env) && Enabled(Run(w, acts, job, env), a)
    ensures CanRun(w, acts + [a], job, env)
  {
    hide Act, Enabled, Run, CanRun;
    RunOne(Run(w, acts, job, env), a, job, env);
    RunConcat(w, acts, [a], job, env);
  }

  /** The result of a finished goroutine waits for a caller that is still selecting, which can receive it. */
  lemma ResultWaits(acts: seq<Action>, s0: State, job: Job, env: Callbacks)
    requires CanCall(job, s0) && CanRun(Initial(s0), acts, job, env)
    requires var w := Run(Initial(s0), acts, job, env); w.pc.Finished? && w.caller.Selecting?
    ensures Run(Initial(s0), acts, job, env).chan == Some(Callback(job, s0, env).1)
    ensures CanRun(Initial(s0), acts + [CallerReceives], job, env)
  {
    hide Run, CanRun, Callback, CompleteStart, CompleteStop;
    InitialInv(s0, job, env);
    RunKeepsInv(Initial(s0), acts, s0, job, env);
    RunMore(Initial(s0), acts, CallerReceives, job, env);
  }

  /** A caller that receives answers with what the callback returns, or reports if that is DeadlineExceeded. */
  lemma ReceivingAnswers(acts: seq<Action>, s0: State, job: Job, env: Callbacks)
    requires CanCall(job, s0) && CanRun(Initial(s0), acts + [CallerReceives], job, env)
    ensures
      var result := Callback(job, s0, env).1;
      Run(Initial(s0), acts + [CallerReceives], job, env).caller ==
      if result == Some(DeadlineExceeded) then Reporting else Returned(Direct(result))
  {
    hide Run, CanRun, Callback, CompleteStart, CompleteStop, WorkerStep;
    InitialInv(s0, job, env);
    RunLast(Initial(s0), acts, CallerReceives, job, env);
    RunKeepsInv(Initial(s0), acts, s0, job, env);
  }

  /** The context's error is the one that it ended with, and there is none before that. */
  lemma {:induction false} ContextErrorIs(acts: seq<Action>, s0: State, job: Job, env: Callbacks, err: Error)
    requires CanCall(job, s0) && CanRun(Initial(s0), acts, job, env)
    ensures Run(Initial(s0), acts, job, env).ctxErr == Some(err) <==> ContextEnds(err) in acts
    ensures Run(Initial(s0), acts, job, env).ctxErr.None? ==> ContextEnds(err) !in acts
    decreases |acts|
  {
    hide Run, CanRun, WorkerStep;
    RunNothing(Initial(s0), job, env);
    if acts != [] {
      var before, a := acts[..|acts| - 1], acts[|acts| - 1];
      assert before + [a] == acts;
      RunLast(Initial(s0), before, a, job, env);
      ContextErrorIs(before, s0, job, env, err);
    }
  }

  /** Once the context ended a caller that is still selecting can see that. */
  lemma DoneIsSeen(acts: seq<Action>, s0: State, job: Job, env: Callbacks, err: Error)
    requires CanCall(job, s0) && CanRun(Initial(s0), acts, job, env) && ContextEnds(err) in acts
    requires Run(Initial(s0), acts, job, env).caller.Selecting?
    ensures CanRun(Initial(s0), acts + [CallerSeesDone], job, env)
  {
    hide Run, CanRun;
    ContextErrorIs(acts, s0, job, env, err);
    RunMore(Initial(s0), acts, CallerSeesDone, job, env);
  }

  /** A caller that sees the context done answers with its error, or reports if that is DeadlineExceeded. */
  lemma SeeingDoneAnswers(acts: seq<Action>, s0: State, job: Job, env: Callbacks)
    requires CanCall(job, s0) && CanRun(Initial(s0), acts + [CallerSeesDone], job, env)
    ensures exists err :: ContextEnds(err) in acts
    ensures forall err | ContextEnds(err) in acts ::
      Run(Initial(s0), acts + [CallerSeesDone], job, env).caller ==
      if err == DeadlineExceeded then Reporting else Returned(Direct(Some(err)))
  {
    hide Run, CanRun, WorkerStep;
    RunLast(Initial(s0), acts, CallerSeesDone, job, env);
    var ctxErr := Run(Initial(s0), acts, job, env).ctxErr;
    ContextErrorIs(acts, s0, job, env, ctxErr.value);
    forall err | ContextEnds(err) in acts
      ensures ctxErr == Some(err)
    {
      ContextErrorIs(acts, s0, job, env, err);
    }
  }

  lemma FinishAlone(w: World, job: Job, env: Callbacks) returns (acts: seq<Action>)
    requires WorldOk(w, job) && (w.chan.Some? ==> w.pc.Finished?)
    ensures CanRun(w, acts, job, env) && forall a | a in acts :: a.WorkerMoves?
    ensures
      var w' := Run(w, acts, job, env);
      w'.pc.Finished? && w'.caller == w.caller && w'.ctxErr == w.ctxErr
    decreases Rank(w.pc, w.s, job)
  {
    hide WorkerStep, Rank;
    acts := [];
    if !w.pc.Finished? {
      StepLowersRank(w, job, env);
      var rest := FinishAlone(Act(w, WorkerMoves, job, env), job, env);
      acts := [WorkerMoves] + rest;
      assert acts[1..] == rest;
    }
  }

  /** A caller that gave up waiting can make its reads. */
  lemma FinishReads(w: World, job: Job, env: Callbacks) returns (steps: seq<Action>)
    requires WorldOk(w, job) && !w.caller.Selecting?
    ensures CanRun(w, steps, job, env) && forall a | a in steps :: a.CallerReads?
    ensures
      var caller := Run(w, steps, job, env).caller;
      caller.Returned? && if w.caller.Returned? then caller == w.caller else caller.answer.TimedOut?
    decreases if w.caller.Reporting? then 1 else 0
  {
    hide WorkerStep;
    steps := [];
    if !w.caller.Returned? {
      var next := Act(w, CallerReads, job, env);
      if next.caller.Returned? {
        RunOne(w, CallerReads, job, env);
        steps := [CallerReads];
      } else {
        var rest := FinishReads(next, job, env);
        steps := [CallerReads] + rest;
        assert steps[1..] == rest;
        RunFirst(w, steps, job, env);
      }
    }
  }

  /**
   * Whatever happened so far, the caller gets its answer if the goroutine and then the caller go on, even if
   * the context never ends: what the callback returns, unless that is DeadlineExceeded or it gave up before.
   */
  lemma CallerCanAnswer(acts: seq<Action>, s0: State, job: Job, env: Callbacks) returns (more: seq<Action>)
    requires CanCall(job, s0) && CanRun(Initial(s0), acts, job, env)
    ensures CanRun(Initial(s0), acts + more, job, env) && forall a | a in more :: !a.ContextEnds?
    ensures
      var caller, result := Run(Initial(s0), acts + more, job, env).caller, Callback(job, s0, env).1;
      && caller.Returned?
      && (Run(Initial(s0), acts, job, env).caller.Selecting? ==>
            if result == Some(DeadlineExceeded) then caller.answer.TimedOut? else caller.answer == Direct(result))
  {
    hide Run, CanRun, Callback, CompleteStart, CompleteStop, WorkerStep, Act;
    InitialInv(s0, job, env);
    RunKeepsInv(Initial(s0), acts, s0, job, env);
    var w := Run(Initial(s0), acts, job, env);
    var alone := FinishAlone(w, job, env);
    RunConcat(Initial(s0), acts, alone, job, env);
    more := alone;
    if w.caller.Selecting? {
      ResultWaits(acts + more, s0, job, env);
      ReceivingAnswers(acts + more, s0, job, env);
      assert acts + (more + [CallerReceives]) == acts + more + [CallerReceives];
      more := more + [CallerReceives];
    }
    var steps := FinishReads(Run(Initial(s0), acts + more, job, env), job, env);
    RunConcat(Initial(s0), acts + more, steps, job, env);
    assert acts + (more + steps) == acts + more + steps;
    more := more + steps;
  }
}
