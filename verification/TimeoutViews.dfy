/**
 * What a caller of withTimeout can find in the records and the running hook, wherever the goroutine is:
 * closed forms that speak only of the hooks present on entry and of the outcomes of the callbacks.
 */
module TimeoutViews {
  import opened Errors
  import opened Events
  import opened LifecycleSpec
  import opened LifecycleFacts
  import opened Timeouts

  // ----- The hook whose callback began last -----

  /** The last of the first b hooks that has an OnStart callback. */
  function LastStart(hs: seq<Hook>, b: nat): (q: Option<nat>)
    requires b <= |hs|
    ensures q.Some? ==> q.value < b && hs[q.value].onStart.Some?
    ensures forall i | 0 <= i < b && hs[i].onStart.Some? :: q.Some? && i <= q.value
  {
    if b == 0 then None
    else if hs[b - 1].onStart.Some? then Some(b - 1)
    else LastStart(hs, b - 1)
  }

  lemma {:induction false} StartRunningIsLast(hs: seq<Hook>, b: nat, before: Hook)
    requires b <= |hs|
    ensures StartRunning(hs, b, before) == HookAt(hs, LastStart(hs, b), before)
  {
    if b > 0 {
      StartRunningIsLast(hs, b - 1, before);
    }
  }

  // ----- What the shared fields hold while Stop runs -----

  /** The goroutine is at, or past, the OnStop callback of the hook on top. */
  predicate TopBegun(pc: Pc) {
    pc.StopCalling? || pc.StopFailing? || pc.StopRecording? || pc.StopCounting?
  }

  /** The started hooks whose OnStop callback has not begun are the first so many. */
  function Unstopped(pc: Pc, s: State): nat
    requires PcOk(pc, s)
  {
    if TopBegun(pc) then s.numStarted - 1 else s.numStarted
  }

  /** The OnStop callbacks not recorded yet are those of the first so many hooks. */
  function Unrecorded(pc: Pc, s: State): nat
    requires PcOk(pc, s)
  {
    if pc.StopCounting? then s.numStarted - 1 else s.numStarted
  }

  /** Stop has reset its records. */
  predicate StopReset(pc: Pc) {
    (InStop(pc) && !pc.StopEntry?) || pc.Sending? || pc.Finished?
  }

  predicate StopCount(pc: Pc, s: State, hs: seq<Hook>, n: nat) {
    && hs <= s.hooks && s.numStarted <= n <= |hs|
    && (pc.RollingBack? || pc.StopEntry? ==> s.numStarted == n)
    && (pc.StopDone? || pc.Sending? || pc.Finished? ==> s.numStarted == 0)
  }

  predicate StopRunningView(pc: Pc, s: State, hs: seq<Hook>, n: nat, other: Hook)
    requires PcOk(pc, s) && StopCount(pc, s, hs, n)
  {
    s.running == StopRunning(hs, n, other, Unstopped(pc, s))
  }

  predicate StopRecordsView(pc: Pc, s: State, hs: seq<Hook>, n: nat)
    requires PcOk(pc, s) && StopCount(pc, s, hs, n)
  {
    StopReset(pc) ==> |s.stopRecords| == StopCalls(hs, n) - StopCalls(hs, Unrecorded(pc, s))
  }

  /** What the fields hold in and after a Stop of the first n hooks, with other the running hook before it. */
  predicate StopView(pc: Pc, s: State, hs: seq<Hook>, n: nat, other: Hook)
    requires PcOk(pc, s)
  {
    StopCount(pc, s, hs, n) && StopRunningView(pc, s, hs, n, other) && StopRecordsView(pc, s, hs, n)
  }

  lemma StopKeepsCount(pc: Pc, s: State, hs: seq<Hook>, n: nat, env: Callbacks)
    requires PcOk(pc, s) && InStop(pc) && StopCount(pc, s, hs, n)
    ensures
      var (pc', s') := StopStep(pc, s, env);
      && StopCount(pc', s', hs, n)
      && StopReset(pc') && !pc'.Finished?
      && Unstopped(pc', s') <= Unstopped(pc, s)
      && s'.startRecords == s.startRecords
  {
  }

  lemma StopKeepsRunning(pc: Pc, s: State, hs: seq<Hook>, n: nat, other: Hook, env: Callbacks)
    requires PcOk(pc, s) && InStop(pc) && StopCount(pc, s, hs, n) && StopRunningView(pc, s, hs, n, other)
    ensures
      var (pc', s') := StopStep(pc, s, env);
      StopCount(pc', s', hs, n) ==> StopRunningView(pc', s', hs, n, other)
  {
    if s.numStarted > 0 {
      assert s.hooks[s.numStarted - 1] == hs[s.numStarted - 1];
    }
  }

  lemma StopKeepsRecords(pc: Pc, s: State, hs: seq<Hook>, n: nat, env: Callbacks)
    requires PcOk(pc, s) && InStop(pc) && StopCount(pc, s, hs, n) && StopRecordsView(pc, s, hs, n)
    ensures
      var (pc', s') := StopStep(pc, s, env);
      StopCount(pc', s', hs, n) ==> StopRecordsView(pc', s', hs, n)
  {
    if s.numStarted > 0 {
      assert s.hooks[s.numStarted - 1] == hs[s.numStarted - 1];
    }
  }

  lemma StopKeepsView(pc: Pc, s: State, hs: seq<Hook>, n: nat, other: Hook, env: Callbacks)
    requires PcOk(pc, s) && InStop(pc) && StopView(pc, s, hs, n, other)
    ensures
      var (pc', s') := StopStep(pc, s, env);
      && StopView(pc', s', hs, n, other)
      && StopReset(pc') && !pc'.Finished?
      && Unstopped(pc', s') <= Unstopped(pc, s)
      && s'.startRecords == s.startRecords
  {
    hide StopStep, StopCount, StopRunningView, StopRecordsView;
    StopKeepsCount(pc, s, hs, n, env);
    StopKeepsRunning(pc, s, hs, n, other, env);
    StopKeepsRecords(pc, s, hs, n, env);
  }

  /** In a rollback the result is an error. */
  lemma RollbackStays(pc: Pc, s: State, env: Callbacks)
    requires PcOk(pc, s) && InStop(pc) && pc.rollback.Some?
    ensures
      var pc' := StopStep(pc, s, env).0;
      if pc.StopDone? then pc' == Sending(pc'.result) && pc'.result.Some? else InStop(pc') && pc'.rollback.Some?
  {
  }

  // ----- What the shared fields hold while Start runs -----

  /** Inside Start: how many hooks were recorded, were reached, and returned from their callback. */
  function RecordedInside(pc: Pc): nat
    requires InStart(pc)
  {
    if pc.StartRecorded? || pc.StartCounting? then pc.i + 1 else pc.i
  }

  function BegunInside(pc: Pc): nat
    requires InStart(pc)
  {
    if pc.StartLoop? || pc.StartAnnounced? then pc.i else pc.i + 1
  }

  function Back(pc: Pc): nat
    requires InStart(pc)
  {
    if pc.StartLoop? || pc.StartAnnounced? || pc.StartCalling? then pc.i else pc.i + 1
  }

  /** How many hooks were recorded, when k hooks start in all. */
  function Recorded(pc: Pc, k: nat): nat {
    if pc.Entry? then 0
    else if InStart(pc) then RecordedInside(pc)
    else k
  }

  /** How many hooks were reached before any rollback. */
  function Begun(pc: Pc, hs: seq<Hook>, k: nat): nat {
    if pc.Entry? then 0
    else if InStart(pc) then BegunInside(pc)
    else if k < |hs| then k + 1
    else k
  }

  predicate Inside(pc: Pc, s: State, s0: State) {
    PcOk(pc, s) && InStart(pc) && pc.snap == s0.hooks
  }

  predicate RecordsView(pc: Pc, s: State, s0: State, env: Callbacks)
    requires Inside(pc, s, s0)
  {
    && s.startRecords == StartRecords(s0.hooks, env, s0.tick, RecordedInside(pc))
    && (pc.StartFailing? || pc.StartRecording? || pc.StartRecorded? ==>
          pc.out == env(s0.tick + StartCalls(s0.hooks, pc.i)))
  }

  predicate RunningView(pc: Pc, s: State, s0: State)
    requires Inside(pc, s, s0)
  {
    && s.running == StartRunning(s0.hooks, BegunInside(pc), s0.running)
    && s.tick == s0.tick + StartCalls(s0.hooks, Back(pc))
  }

  /** No hook before the current one fails, and the current one fails if it is about to be given up. */
  predicate FailureView(pc: Pc, s: State, s0: State, env: Callbacks)
    requires Inside(pc, s, s0)
  {
    var k := FirstFailure(s0.hooks, env, s0.tick);
    if pc.StartFailing? then pc.i == k
    else if pc.StartRecording? || pc.StartRecorded? || pc.StartCounting? then pc.i < k
    else pc.i <= k
  }

  lemma NothingStarted(s: State, env: Callbacks)
    ensures StartRecords(s.hooks, env, s.tick, 0) == [] && StartRunning(s.hooks, 0, s.running) == s.running
    ensures StartCalls(s.hooks, 0) == 0
  {
  }

  lemma StartKeepsRecords(pc: Pc, s: State, s0: State, env: Callbacks)
    requires Inside(pc, s, s0) && RecordsView(pc, s, s0, env) && RunningView(pc, s, s0)
    ensures
      var (pc', s') := StartStep(pc, s, env);
      InStart(pc') ==> Inside(pc', s', s0) && RecordsView(pc', s', s0, env)
  {
    hide StartRunning, StartRecords, StartCalls;
    if pc.i < |pc.snap| {
      StartRecordsNext(pc.snap, env, s0.tick, pc.i);
    }
  }

  lemma StartRecordsNext(hs: seq<Hook>, env: Callbacks, t: nat, i: nat)
    requires i < |hs|
    ensures StartRecords(hs, env, t, i + 1) == StartRecords(hs, env, t, i) +
      match hs[i].onStart
      case None => []
      case Some(f) => [HookRecord(hs[i].caller, f, env(t + StartCalls(hs, i)).runtime)]
  {
  }

  lemma StartKeepsRunning(pc: Pc, s: State, s0: State, env: Callbacks)
    requires Inside(pc, s, s0) && RunningView(pc, s, s0)
    ensures
      var (pc', s') := StartStep(pc, s, env);
      InStart(pc') ==>
        Inside(pc', s', s0) && RunningView(pc', s', s0) && BegunInside(pc) <= BegunInside(pc')
  {
  }

  lemma StartKeepsFailure(pc: Pc, s: State, s0: State, env: Callbacks)
    requires Inside(pc, s, s0) && RecordsView(pc, s, s0, env) && RunningView(pc, s, s0) && FailureView(pc, s, s0, env)
    ensures
      var (pc', s') := StartStep(pc, s, env);
      InStart(pc') ==> Inside(pc', s', s0) && FailureView(pc', s', s0, env)
  {
    hide StartRunning, StartRecords, StartCalls;
    if pc.i < |pc.snap| {
      assert Fails(s0.hooks, env, s0.tick, pc.i) <==>
        pc.snap[pc.i].onStart.Some? && env(s0.tick + StartCalls(s0.hooks, pc.i)).err.Some?;
    }
  }

  /** Start has ended without an error. */
  predicate Succeeded(pc: Pc) {
    pc.StartDone? || pc == Sending(None) || pc == Finished(None)
  }

  /** What the fields hold once Start has ended. */
  predicate EndView(pc: Pc, s: State, s0: State, env: Callbacks)
    requires PcOk(pc, s)
  {
    var hs, k := s0.hooks, FirstFailure(s0.hooks, env, s0.tick);
    && !pc.Entry? && !InStart(pc)
    && s.startRecords == StartRecords(hs, env, s0.tick, k)
    && if Succeeded(pc) then k == |hs| && s.running == StartRunning(hs, k, s0.running)
       else k < |hs| && StopView(pc, s, hs, k, hs[k]) && (InStop(pc) ==> pc.rollback.Some?)
  }

  lemma LeavingStart(pc: Pc, s: State, s0: State, env: Callbacks)
    requires Inside(pc, s, s0) && RecordsView(pc, s, s0, env) && RunningView(pc, s, s0) && FailureView(pc, s, s0, env)
    ensures
      var (pc', s') := StartStep(pc, s, env);
      !InStart(pc') ==> EndView(pc', s', s0, env)
  {
    hide StartRecords, StartCalls, FirstFailure;
  }

  lemma RollbackBegins(pc: Pc, s: State, hs: seq<Hook>, n: nat, other: Hook)
    requires PcOk(pc, s) && pc.RollingBack? && StopView(pc, s, hs, n, other)
    ensures StopView(StopEntry(Some(pc.err)), s.Log(Rollback(pc.err)), hs, n, other)
  {
  }

  lemma EndKeepsView(pc: Pc, s: State, s0: State, job: Job, env: Callbacks)
    requires PcOk(pc, s) && EndView(pc, s, s0, env) && !pc.Sending? && !pc.Finished?
    ensures
      var (pc', s') := WorkerStep(pc, s, job, env);
      EndView(pc', s', s0, env)
  {
    hide StartStep, StopStep, StartRecords, StartRunning, StopRunningView, StopRecordsView, FirstFailure;
    if InStop(pc) {
      var hs, k := s0.hooks, FirstFailure(s0.hooks, env, s0.tick);
      StopKeepsView(pc, s, hs, k, hs[k], env);
      RollbackStays(pc, s, env);
    } else if pc.RollingBack? {
      RollbackBegins(pc, s, s0.hooks, s.numStarted, s0.hooks[s.numStarted]);
    }
  }

  // ----- Wherever the goroutine is -----

  predicate StartView(pc: Pc, s: State, s0: State, env: Callbacks)
    requires PcOk(pc, s)
  {
    if InStart(pc)
    then Inside(pc, s, s0) && RecordsView(pc, s, s0, env) && RunningView(pc, s, s0) && FailureView(pc, s, s0, env)
    else EndView(pc, s, s0, env)
  }

  /** The goroutine runs Stop as its job, and not as a rollback. */
  predicate OnlyStops(pc: Pc) {
    !InStart(pc) && !pc.StartDone? && !pc.RollingBack?
  }

  /** What the fields hold after a call with lifecycle s0. */
  predicate View(pc: Pc, s: State, s0: State, job: Job, env: Callbacks)
    requires PcOk(pc, s)
  {
    if pc.Entry? then s == s0 && CanCall(job, s0)
    else
      match job
      case StartJob(Some(_)) => s == s0 && (pc.Sending? || pc.Finished?)
      case StartJob(None) => StartView(pc, s, s0, env)
      case StopJob =>
        && OnlyStops(pc) && StopView(pc, s, s0.hooks, s0.numStarted, s0.running)
        && (pc.StopEntry? ==> s.stopRecords == s0.stopRecords)
  }

  /** While Start runs it has reached the first m hooks; Stop has left alone the first m hooks at most. */
  predicate Reached(pc: Pc, s: State, job: Job, m: nat)
    requires PcOk(pc, s)
  {
    match job
    case StartJob(_) => (pc.Entry? ==> m == 0) && (InStart(pc) ==> m <= BegunInside(pc))
    case StopJob => Unstopped(pc, s) <= m
  }

  lemma StartKeepsView(pc: Pc, s: State, s0: State, env: Callbacks)
    requires PcOk(pc, s) && InStart(pc) && StartView(pc, s, s0, env)
    ensures
      var (pc', s') := StartStep(pc, s, env);
      StartView(pc', s', s0, env) && (InStart(pc') ==> BegunInside(pc) <= BegunInside(pc'))
  {
    hide StartStep, RecordsView, RunningView, FailureView, EndView;
    StartKeepsRecords(pc, s, s0, env);
    StartKeepsRunning(pc, s, s0, env);
    StartKeepsFailure(pc, s, s0, env);
    LeavingStart(pc, s, s0, env);
  }

  lemma EntryView(s0: State, job: Job, env: Callbacks)
    requires PcOk(Entry, s0) && CanCall(job, s0)
    ensures
      var (pc', s') := WorkerStep(Entry, s0, job, env);
      && View(pc', s', s0, job, env)
      && forall m | Reached(Entry, s0, job, m) :: Reached(pc', s', job, m)
  {
    hide StartRecords, StartRunning, StartCalls, EndView;
    NothingStarted(s0, env);
  }

  lemma StartJobKeepsView(pc: Pc, s: State, s0: State, env: Callbacks, m: nat)
    requires PcOk(pc, s) && !pc.Entry? && !pc.Sending? && !pc.Finished? && StartView(pc, s, s0, env)
    ensures
      var (pc', s') := WorkerStep(pc, s, StartJob(None), env);
      && StartView(pc', s', s0, env)
      && (Reached(pc, s, StartJob(None), m) ==> Reached(pc', s', StartJob(None), m))
  {
    hide StartStep, StopStep, EndView, RecordsView, RunningView, FailureView;
    if InStart(pc) {
      StartKeepsView(pc, s, s0, env);
    } else {
      EndKeepsView(pc, s, s0, StartJob(None), env);
      EndIsOutsideStart(s0, env);
    }
  }

  lemma EndIsOutsideStart(s0: State, env: Callbacks)
    ensures forall pc, s | PcOk(pc, s) && EndView(pc, s, s0, env) :: !pc.Entry? && !InStart(pc)
  {
  }

  lemma StopJobKeepsView(pc: Pc, s: State, s0: State, env: Callbacks, m: nat)
    requires PcOk(pc, s) && !pc.Entry? && !pc.Sending? && !pc.Finished? && View(pc, s, s0, StopJob, env)
    ensures
      var (pc', s') := WorkerStep(pc, s, StopJob, env);
      && View(pc', s', s0, StopJob, env)
      && (Reached(pc, s, StopJob, m) ==> Reached(pc', s', StopJob, m))
  {
    hide StopStep, StopView;
    StopKeepsView(pc, s, s0.hooks, s0.numStarted, s0.running, env);
  }

  lemma WorkerKeepsView(pc: Pc, s: State, s0: State, job: Job, env: Callbacks, m: nat)
    requires PcOk(pc, s) && !pc.Sending? && !pc.Finished? && View(pc, s, s0, job, env)
    ensures
      var (pc', s') := WorkerStep(pc, s, job, env);
      && View(pc', s', s0, job, env)
      && (Reached(pc, s, job, m) ==> Reached(pc', s', job, m))
  {
    if pc.Entry? {
      EntryView(s0, job, env);
    } else if job == StartJob(None) {
      StartJobKeepsView(pc, s, s0, env, m);
    } else if job == StopJob {
      StopJobKeepsView(pc, s, s0, env, m);
    }
    hide StartView, StopView, StartStep, StopStep;
  }
}
