/** What a caller of withTimeout reports after a deadline. */
module TimeoutReports {
  import opened Errors
  import opened Events
  import opened LifecycleSpec
  import opened LifecycleFacts
  import opened AppSpec
  import opened Timeouts
  import opened TimeoutViews
  import opened Lifecycles
  import HookRecords

  /** An App.start of an application that New built without error. */
  const START := StartJob(None)

  lemma {:induction false} RunKeepsView(w: World, acts: seq<Action>, s0: State, job: Job, env: Callbacks, m: nat)
    requires WorldOk(w, job) && CanRun(w, acts, job, env) && View(w.pc, w.s, s0, job, env)
    ensures
      var w' := Run(w, acts, job, env);
      View(w'.pc, w'.s, s0, job, env) && (Reached(w.pc, w.s, job, m) ==> Reached(w'.pc, w'.s, job, m))
    decreases |acts|
  {
    if acts != [] {
      ActKeepsView(w, acts[0], s0, job, env, m);
      hide View, Act, Reached;
      RunKeepsView(Act(w, acts[0], job, env), acts[1..], s0, job, env, m);
    }
  }

  lemma ActKeepsView(w: World, a: Action, s0: State, job: Job, env: Callbacks, m: nat)
    requires WorldOk(w, job) && Enabled(w, a) && View(w.pc, w.s, s0, job, env)
    ensures
      var w' := Act(w, a, job, env);
      View(w'.pc, w'.s, s0, job, env) && (Reached(w.pc, w.s, job, m) ==> Reached(w'.pc, w'.s, job, m))
  {
    if a.WorkerMoves? {
      if w.pc.Sending? {
        SendingKeepsView(w.pc.result, w.s, s0, job, env);
      } else {
        WorkerKeepsView(w.pc, w.s, s0, job, env, m);
      }
    }
    hide WorkerStep, View;
  }

  lemma SendingKeepsView(result: Option<Error>, s: State, s0: State, job: Job, env: Callbacks)
    requires PcOk(Sending(result), s) && View(Sending(result), s, s0, job, env)
    ensures View(Finished(result), s, s0, job, env)
  {
    hide StartRecords, StartRunning, StopRunning, StopCalls, FirstFailure;
  }

  /** What the caller read stays as it is until it returns, and it returns once. */
  lemma {:induction false} ReadRecordsStay(w: World, acts: seq<Action>, job: Job, env: Callbacks)
    requires WorldOk(w, job) && CanRun(w, acts, job, env)
    ensures w.caller.Returned? ==> Run(w, acts, job, env).caller == w.caller
    ensures w.caller.HasRecords? ==>
      Run(w, acts, job, env).caller == w.caller || Run(w, acts, job, env).caller.Returned?
    decreases |acts|
  {
    if acts != [] {
      hide WorkerStep;
      ReadRecordsStay(Act(w, acts[0], job, env), acts[1..], job, env);
    }
  }

  // ----- The two reads -----

  /** A schedule in which the caller reads the records after before, and the running hook after between. */
  predicate ReadsTwice(before: seq<Action>, between: seq<Action>, s0: State, job: Job, env: Callbacks) {
    && PcOk(Entry, s0) && CanCall(job, s0)
    && CanRun(Initial(s0), before, job, env)
    && var atRecords := Run(Initial(s0), before, job, env);
    && atRecords.caller.Reporting?
    && CanRun(Act(atRecords, CallerReads, job, env), between, job, env)
    && Run(Act(atRecords, CallerReads, job, env), between, job, env).caller.HasRecords?
  }

  /** The world in which the caller reads the records, and the one in which it reads the running hook. */
  function AtRecords(before: seq<Action>, between: seq<Action>, s0: State, job: Job, env: Callbacks): (w: World)
    requires ReadsTwice(before, between, s0, job, env)
    ensures WorldOk(w, job) && w.caller.Reporting?
  {
    Run(Initial(s0), before, job, env)
  }

  function AtRunning(before: seq<Action>, between: seq<Action>, s0: State, job: Job, env: Callbacks): (w: World)
    requires ReadsTwice(before, between, s0, job, env)
    ensures WorldOk(w, job) && w.caller.HasRecords?
  {
    Run(Act(Run(Initial(s0), before, job, env), CallerReads, job, env), between, job, env)
  }

  /** What the caller of the two reads answers with. */
  function AnswerOf(before: seq<Action>, between: seq<Action>, s0: State, job: Job, env: Callbacks): (a: Answer)
    requires ReadsTwice(before, between, s0, job, env)
    ensures a.TimedOut?
  {
    Act(AtRunning(before, between, s0, job, env), CallerReads, job, env).caller.answer
  }

  /** The fields at both reads, and how far the goroutine must have come by the second. */
  lemma ViewsAtReads(before: seq<Action>, between: seq<Action>, s0: State, job: Job, env: Callbacks, m: nat)
    requires ReadsTwice(before, between, s0, job, env)
    ensures
      var w, w' := AtRecords(before, between, s0, job, env), AtRunning(before, between, s0, job, env);
      && View(w.pc, w.s, s0, job, env) && View(w'.pc, w'.s, s0, job, env)
      && (Reached(w.pc, w.s, job, m) ==> Reached(w'.pc, w'.s, job, m))
      && AnswerOf(before, between, s0, job, env) ==
           TimedOut(w'.s.running.caller, if job.StartJob? then w.s.startRecords else w.s.stopRecords)
  {
    hide Run, CanRun, StartView, StopView, Reached, WorkerStep;
    RunKeepsView(Initial(s0), before, s0, job, env, m);
    var w := AtRecords(before, between, s0, job, env);
    var read := Act(w, CallerReads, job, env);
    RunKeepsView(read, between, s0, job, env, m);
    ReadRecordsStay(read, between, job, env);
  }

  // ----- Reports about Start -----

  /** No Stop was entered as a rollback. */
  predicate BeforeRollback(pc: Pc) {
    pc.Entry? || InStart(pc) || pc.RollingBack? || Succeeded(pc)
  }

  /** The hook that the running hook is; None if no callback of this Start began. */
  function Reported(w: World, s0: State, env: Callbacks): (u: Option<nat>)
    requires WorldOk(w, START) && View(w.pc, w.s, s0, START, env)
    ensures u.Some? ==> u.value < |s0.hooks|
  {
    var hs, k := s0.hooks, FirstFailure(s0.hooks, env, s0.tick);
    if BeforeRollback(w.pc) then LastStart(hs, Begun(w.pc, hs, k))
    else Some(LowestStop(hs, k, Unstopped(w.pc, w.s)).GetOr(k))
  }

  /** The start records: until Start resets them, those that an earlier Start left. */
  function RecordsAt(pc: Pc, s0: State, env: Callbacks, r: nat): seq<HookRecord>
    requires r <= |s0.hooks|
  {
    if pc.Entry? then s0.startRecords else StartRecords(s0.hooks, env, s0.tick, r)
  }

  lemma FieldsAre(w: World, s0: State, env: Callbacks)
    requires WorldOk(w, START) && View(w.pc, w.s, s0, START, env)
    ensures
      var hs, k := s0.hooks, FirstFailure(s0.hooks, env, s0.tick);
      && Recorded(w.pc, k) <= k
      && w.s.startRecords == RecordsAt(w.pc, s0, env, Recorded(w.pc, k))
      && w.s.running == HookAt(hs, Reported(w, s0, env), s0.running)
      && Reached(w.pc, w.s, START, Recorded(w.pc, k))
      && (if BeforeRollback(w.pc) then Begun(w.pc, hs, k) <= |hs| else k < |hs| && Unstopped(w.pc, w.s) <= k)
  {
    hide StartRecords, StartCalls, StartRunning, LastStart, LowestStop;
    var hs, k := s0.hooks, FirstFailure(s0.hooks, env, s0.tick);
    if BeforeRollback(w.pc) {
      NothingStarted(s0, env);
      StartRunningIsLast(hs, Begun(w.pc, hs, k), s0.running);
    }
  }

  /** What is read and answered, wherever the goroutine is at the two reads. */
  lemma StartAnswer(before: seq<Action>, between: seq<Action>, s0: State, env: Callbacks)
    requires ReadsTwice(before, between, s0, START, env)
    ensures
      var w, w' := AtRecords(before, between, s0, START, env), AtRunning(before, between, s0, START, env);
      var hs, k := s0.hooks, FirstFailure(s0.hooks, env, s0.tick);
      var r := Recorded(w.pc, k);
      && r <= k && View(w'.pc, w'.s, s0, START, env)
      && (if BeforeRollback(w'.pc) then r <= Begun(w'.pc, hs, k) <= |hs|
          else k < |hs| && Unstopped(w'.pc, w'.s) <= k)
      && AnswerOf(before, between, s0, START, env) ==
           TimedOut(HookAt(hs, Reported(w', s0, env), s0.running).caller, RecordsAt(w.pc, s0, env, r))
  {
    hide ReadsTwice, AtRecords, AtRunning, AnswerOf, View, RecordsAt, FirstFailure, HookAt;
    var w, w' := AtRecords(before, between, s0, START, env), AtRunning(before, between, s0, START, env);
    var r := Recorded(w.pc, FirstFailure(s0.hooks, env, s0.tick));
    ViewsAtReads(before, between, s0, START, env, r);
    FieldsAre(w, s0, env);
    FieldsAre(w', s0, env);
  }

  /** No hook recorded among the first r is later than the reported one. */
  ghost predicate NeverLater(hs: seq<Hook>, r: nat, u: Option<nat>)
    requires r <= |hs|
  {
    forall i | 0 <= i < r && hs[i].onStart.Some? :: u.Some? && i <= u.value
  }

  /**
   * A caller that reads the records after Start reset them gets exactly the records of the first r hooks
   * with an OnStart callback, in order; before that, it gets what an earlier Start left. If it reads the
   * running hook later, still before a rollback stops anything, it reports the hook whose callback began
   * last, and no hook recorded by this Start comes after that one. This holds however the goroutine moves
   * before, between and after the two reads, and also once Start has ended.
   */
  lemma ReportIsConsistent(before: seq<Action>, between: seq<Action>, s0: State, env: Callbacks)
    requires ReadsTwice(before, between, s0, START, env)
    requires BeforeRollback(AtRunning(before, between, s0, START, env).pc)
    ensures
      var w, w' := AtRecords(before, between, s0, START, env), AtRunning(before, between, s0, START, env);
      var hs, k := s0.hooks, FirstFailure(s0.hooks, env, s0.tick);
      var r, b := Recorded(w.pc, k), Begun(w'.pc, hs, k);
      && r <= k && r <= b <= |hs|
      && AnswerOf(before, between, s0, START, env) ==
           TimedOut(HookAt(hs, LastStart(hs, b), s0.running).caller, RecordsAt(w.pc, s0, env, r))
      && NeverLater(hs, r, LastStart(hs, b))
  {
    hide ReadsTwice, AtRecords, AtRunning, AnswerOf, View, RecordsAt, FirstFailure;
    StartAnswer(before, between, s0, env);
  }

  /** Among hooks low to high - 1, one with an OnStop callback comes before one with an OnStart callback. */
  ghost predicate StopBelowStart(hs: seq<Hook>, low: nat, high: nat)
    requires high <= |hs|
  {
    exists q, i | low <= q < i < high :: hs[q].onStop.Some? && hs[i].onStart.Some?
  }

  /**
   * If the running hook is read after the rollback of a Start that failed at hook k was entered, the hook
   * reported is the lowest one whose OnStop callback has begun, or hook k. A hook recorded by this Start is
   * later than that exactly if the rollback has begun to stop a hook below a recorded one. Here top hooks
   * were not reached by the rollback, and r were recorded; the records answered are as before a rollback.
   */
  lemma RollbackReport(before: seq<Action>, between: seq<Action>, s0: State, env: Callbacks)
    requires ReadsTwice(before, between, s0, START, env)
    requires !BeforeRollback(AtRunning(before, between, s0, START, env).pc)
    ensures
      var w, w' := AtRecords(before, between, s0, START, env), AtRunning(before, between, s0, START, env);
      var hs, k := s0.hooks, FirstFailure(s0.hooks, env, s0.tick);
      var r, top := Recorded(w.pc, k), Unstopped(w'.pc, w'.s);
      && r <= k < |hs| && top <= k
      && var u := LowestStop(hs, k, top).GetOr(k);
      && AnswerOf(before, between, s0, START, env) == TimedOut(hs[u].caller, RecordsAt(w.pc, s0, env, r))
      && (NeverLater(hs, r, Some(u)) <==> !StopBelowStart(hs, top, r))
  {
    hide ReadsTwice, AtRecords, AtRunning, AnswerOf, View, RecordsAt, FirstFailure;
    StartAnswer(before, between, s0, env);
  }

  // ----- Reports about Stop -----

  /** The records of the OnStop callbacks of hooks n - 1 down to r, in the order in which they run. */
  function StopRecordsDown(hs: seq<Hook>, env: Callbacks, t: nat, n: nat, r: nat): seq<HookRecord>
    requires r <= n <= |hs|
    decreases n
  {
    if n == r then []
    else
      match hs[n - 1].onStop
      case None => StopRecordsDown(hs, env, t, n - 1, r)
      case Some(f) => [HookRecord(hs[n - 1].caller, f, env(t).runtime)] + StopRecordsDown(hs, env, t + 1, n - 1, r)
  }

  lemma {:induction false} StopRecordsDownAreFirst(hs: seq<Hook>, env: Callbacks, t: nat, n: nat, r: nat)
    requires r <= n <= |hs|
    ensures StopRecordsDown(hs, env, t, n, r) <= StopRecords(hs, env, t, n)
    ensures |StopRecordsDown(hs, env, t, n, r)| == StopCalls(hs, n) - StopCalls(hs, r)
    decreases n
  {
    if n > r {
      StopRecordsDownAreFirst(hs, env, if hs[n - 1].onStop.Some? then t + 1 else t, n - 1, r);
    }
  }

  /** The records a caller can read are always the first ones of the whole Stop. */
  lemma CompleteStopAddsRecords(pc: Pc, s: State, env: Callbacks)
    requires PcOk(pc, s) && InStop(pc) && !pc.StopEntry?
    ensures s.stopRecords <= CompleteStop(pc, s, env).0.stopRecords
  {
    hide StopFrom;
    forall s1: State, errs | s1.numStarted <= |s1.hooks|
      ensures s1.stopRecords <= StopFrom(s1, errs, env).0.stopRecords
    {
      StopFromStopped(s1, s1.hooks, errs, env);
    }
  }

  /** The records a caller can read are the first ones of this Stop. */
  lemma StopReportIsPrefix(acts: seq<Action>, s0: State, env: Callbacks)
    requires CanCall(StopJob, s0) && CanRun(Initial(s0), acts, StopJob, env)
    requires StopReset(Run(Initial(s0), acts, StopJob, env).pc)
    ensures
      var w := Run(Initial(s0), acts, StopJob, env);
      w.s.stopRecords <= StopRecords(s0.hooks, env, s0.tick, s0.numStarted)
  {
    hide Run, CanRun, CompleteStop, CompleteStart, Stop, StopRecords, StopTrace, StopEvents, CallErrors;
    NothingRanYet(s0, StopJob, env);
    RunKeepsInv(Initial(s0), acts, s0, StopJob, env);
    var w := Run(Initial(s0), acts, StopJob, env);
    StopOutcome(s0, s0.hooks, env);
    if InStop(w.pc) {
      CompleteStopAddsRecords(w.pc, w.s, env);
    }
  }

  lemma NothingRanYet(s0: State, job: Job, env: Callbacks)
    requires CanCall(job, s0)
    ensures Inv(Initial(s0), s0, job, env)
  {
  }

  lemma StopRecordsAre(acts: seq<Action>, s0: State, env: Callbacks)
    requires CanCall(StopJob, s0) && CanRun(Initial(s0), acts, StopJob, env)
    requires var w := Run(Initial(s0), acts, StopJob, env); View(w.pc, w.s, s0, StopJob, env)
    ensures
      var w := Run(Initial(s0), acts, StopJob, env);
      && Unstopped(w.pc, w.s) <= Unrecorded(w.pc, w.s) <= s0.numStarted
      && w.s.stopRecords ==
           if StopReset(w.pc) then StopRecordsDown(s0.hooks, env, s0.tick, s0.numStarted, Unrecorded(w.pc, w.s))
           else s0.stopRecords
  {
    hide Run, CanRun, StopCalls, StopRecords, StopRecordsDown;
    var w := Run(Initial(s0), acts, StopJob, env);
    if StopReset(w.pc) {
      var n, r := s0.numStarted, Unrecorded(w.pc, w.s);
      StopReportIsPrefix(acts, s0, env);
      StopRecordsDownAreFirst(s0.hooks, env, s0.tick, n, r);
      assert |w.s.stopRecords| == |StopRecordsDown(s0.hooks, env, s0.tick, n, r)|;
      assert w.s.stopRecords == StopRecordsDown(s0.hooks, env, s0.tick, n, r);
    }
  }

  /** No hook from r to n - 1 with an OnStop callback, and so recorded, is before the reported one. */
  ghost predicate NeverEarlier(hs: seq<Hook>, r: nat, n: nat, u: Option<nat>)
    requires n <= |hs|
  {
    forall i | r <= i < n && hs[i].onStop.Some? :: u.Some? && u.value <= i
  }

  /**
   * A caller of Stop that reads after the records were reset gets exactly the records of the OnStop
   * callbacks of hooks n - 1 down to some r, failed or not, in the order in which they ran; before that, it
   * gets what an earlier Stop left. The hook it reports is the one whose OnStop callback began last, and no
   * hook recorded by this Stop is before that one. This holds however the goroutine moves before, between
   * and after the two reads.
   */
  lemma StopReportIsConsistent(before: seq<Action>, between: seq<Action>, s0: State, env: Callbacks)
    requires ReadsTwice(before, between, s0, StopJob, env)
    ensures
      var w, w' := AtRecords(before, between, s0, StopJob, env), AtRunning(before, between, s0, StopJob, env);
      var hs, n, r, b := s0.hooks, s0.numStarted, Unrecorded(w.pc, w.s), Unstopped(w'.pc, w'.s);
      && b <= r <= n
      && AnswerOf(before, between, s0, StopJob, env) == TimedOut(
           StopRunning(hs, n, s0.running, b).caller,
           if StopReset(w.pc) then StopRecordsDown(hs, env, s0.tick, n, r) else s0.stopRecords)
      && NeverEarlier(hs, r, n, LowestStop(hs, n, b))
  {
    hide Run, CanRun, AnswerOf, StopRecordsDown;
    var w := AtRecords(before, between, s0, StopJob, env);
    ViewsAtReads(before, between, s0, StopJob, env, Unrecorded(w.pc, w.s));
    StopRecordsAre(before, s0, env);
  }

  // ----- Which lifecycles report consistently -----

  /** The records that the call itself has made, when the goroutine is at pc. */
  function OwnRecords(pc: Pc, s: State, s0: State, job: Job, env: Callbacks): seq<HookRecord>
    requires PcOk(pc, s) && CanCall(job, s0) && View(pc, s, s0, job, env)
  {
    match job
    case StartJob(Some(_)) => []
    case StartJob(None) =>
      var k := FirstFailure(s0.hooks, env, s0.tick);
      assert Recorded(pc, k) <= k;
      StartRecords(s0.hooks, env, s0.tick, Recorded(pc, k))
    case StopJob =>
      if StopReset(pc) then StopRecordsDown(s0.hooks, env, s0.tick, s0.numStarted, Unrecorded(pc, s)) else []
  }

  /** The call has not yet reset the records, or never does, because New failed. */
  predicate BeforeReset(pc: Pc, job: Job) {
    match job
    case StartJob(Some(_)) => true
    case StartJob(None) => pc.Entry?
    case StopJob => !StopReset(pc)
  }

  /** The records that an earlier call of the same kind left. */
  function LeftOver(s0: State, job: Job): seq<HookRecord> {
    if job.StartJob? then s0.startRecords else s0.stopRecords
  }

  /** The report lists the records that the call itself has made when they are read, and no others. */
  ghost predicate ListsOwn(before: seq<Action>, between: seq<Action>, s0: State, job: Job, env: Callbacks)
    requires ReadsTwice(before, between, s0, job, env)
  {
    ViewsAtReads(before, between, s0, job, env, 0);
    var w := AtRecords(before, between, s0, job, env);
    AnswerOf(before, between, s0, job, env).records == OwnRecords(w.pc, w.s, s0, job, env)
  }

  lemma ListedAre(before: seq<Action>, between: seq<Action>, s0: State, job: Job, env: Callbacks)
    requires ReadsTwice(before, between, s0, job, env)
    ensures
      var pc := AtRecords(before, between, s0, job, env).pc;
      ListsOwn(before, between, s0, job, env) <==> (BeforeReset(pc, job) ==> LeftOver(s0, job) == [])
  {
    hide ReadsTwice, AtRecords, AtRunning, AnswerOf, StartRecords, StopRecordsDown, FirstFailure;
    var w := AtRecords(before, between, s0, job, env);
    ViewsAtReads(before, between, s0, job, env, 0);
    match job
    case StartJob(Some(_)) =>
    case StartJob(None) =>
      StartAnswer(before, between, s0, env);
      NothingStarted(s0, env);
    case StopJob =>
      StopReportIsConsistent(before, between, s0, env);
  }

  /** No hook that this Start recorded is later than the hook reported. */
  ghost predicate StartInOrder(before: seq<Action>, between: seq<Action>, s0: State, env: Callbacks)
    requires ReadsTwice(before, between, s0, START, env)
  {
    StartAnswer(before, between, s0, env);
    var w, w' := AtRecords(before, between, s0, START, env), AtRunning(before, between, s0, START, env);
    NeverLater(s0.hooks, Recorded(w.pc, FirstFailure(s0.hooks, env, s0.tick)), Reported(w', s0, env))
  }

  /** No hook that this Stop recorded is earlier than the hook reported. */
  ghost predicate StopInOrder(before: seq<Action>, between: seq<Action>, s0: State, env: Callbacks)
    requires ReadsTwice(before, between, s0, StopJob, env)
  {
    StopReportIsConsistent(before, between, s0, env);
    var w, w' := AtRecords(before, between, s0, StopJob, env), AtRunning(before, between, s0, StopJob, env);
    NeverEarlier(s0.hooks, Unrecorded(w.pc, w.s), s0.numStarted,
                 LowestStop(s0.hooks, s0.numStarted, Unstopped(w'.pc, w'.s)))
  }

  /** Callbacks that append nothing, and of which only the c-th fails. */
  function OnlyFails(c: nat): Callbacks {
    (n: nat) => Outcome(if n == c then Some(DeadlineExceeded) else None, 0, [])
  }

  /** The context may have ended before the goroutine moves at all. */
  lemma TimeOutAtOnce(s0: State, job: Job, env: Callbacks) returns (before: seq<Action>)
    requires CanCall(job, s0)
    ensures ReadsTwice(before, [], s0, job, env)
    ensures AtRecords(before, [], s0, job, env).pc.Entry?
  {
    hide WorkerStep, Run, CanRun;
    before := [ContextEnds(DeadlineExceeded), CallerSeesDone];
    var ended := Act(Initial(s0), before[0], job, env);
    assert before[1..] == [CallerSeesDone];
    RunOne(ended, CallerSeesDone, job, env);
    RunFirst(Initial(s0), before, job, env);
    RunNothing(Act(Run(Initial(s0), before, job, env), CallerReads, job, env), job, env);
  }

  /**
   * Every report lists only records of the call that it is about, if and only if no earlier call of the same
   * kind left any: the records may be read before the goroutine resets them.
   */
  lemma ReportsListOwnRecords(s0: State, job: Job)
    requires CanCall(job, s0)
    ensures
      (forall env: Callbacks, before, between | ReadsTwice(before, between, s0, job, env) ::
         ListsOwn(before, between, s0, job, env))
      <==> LeftOver(s0, job) == []
  {
    hide ReadsTwice, AtRecords, ListsOwn, LeftOver;
    if LeftOver(s0, job) == [] {
      forall env: Callbacks, before, between | ReadsTwice(before, between, s0, job, env)
        ensures ListsOwn(before, between, s0, job, env)
      {
        ListedAre(before, between, s0, job, env);
      }
    } else {
      var env := OnlyFails(0);
      var before := TimeOutAtOnce(s0, job, env);
      ListedAre(before, [], s0, job, env);
      assert ReadsTwice(before, [], s0, job, env) && !ListsOwn(before, [], s0, job, env);
    }
  }

  /** Two counts of OnStart callbacks agree exactly when no hook in between has one. */
  lemma {:induction false} StartCallsBetween(hs: seq<Hook>, a: nat, b: nat)
    requires a <= b <= |hs|
    ensures StartCalls(hs, a) <= StartCalls(hs, b)
    ensures StartCalls(hs, a) == StartCalls(hs, b) <==> forall i | a <= i < b :: hs[i].onStart.None?
  {
    if a < b {
      StartCallsBetween(hs, a, b - 1);
    }
  }

  lemma FailsAt(hs: seq<Hook>, t: nat, k: nat)
    requires k < |hs| && hs[k].onStart.Some?
    ensures FirstFailure(hs, OnlyFails(t + StartCalls(hs, k)), t) == k
  {
    hide StartCalls;
    var env := OnlyFails(t + StartCalls(hs, k));
    assert Fails(hs, env, t, k);
    forall j | 0 <= j < k
      ensures !Fails(hs, env, t, j)
    {
      StartCallsBetween(hs, j, k);
    }
  }

  /** The context may end after the goroutine did, and before the caller looks. */
  lemma TimeOutAtTheEnd(s0: State, env: Callbacks) returns (before: seq<Action>)
    requires CanCall(START, s0)
    ensures ReadsTwice(before, [], s0, START, env)
    ensures AtRecords(before, [], s0, START, env).pc.Finished? && AtRunning(before, [], s0, START, env).pc.Finished?
  {
    hide WorkerStep, Run, CanRun;
    var alone := FinishAlone(Initial(s0), START, env);
    var w := Run(Initial(s0), alone, START, env);
    var timeOut := [ContextEnds(DeadlineExceeded), CallerSeesDone];
    var ended := Act(w, timeOut[0], START, env);
    assert timeOut[1..] == [CallerSeesDone];
    RunOne(ended, CallerSeesDone, START, env);
    RunFirst(w, timeOut, START, env);
    RunConcat(Initial(s0), alone, timeOut, START, env);
    before := alone + timeOut;
    RunNothing(Act(Run(Initial(s0), before, START, env), CallerReads, START, env), START, env);
  }

  /** A start that fails at hook k and rolls back can report a hook before a recorded one. */
  lemma BadReport(s0: State, k: nat) returns (env: Callbacks, before: seq<Action>)
    requires CanCall(START, s0) && k < |s0.hooks| && s0.hooks[k].onStart.Some? && StopBelowStart(s0.hooks, 0, k)
    ensures ReadsTwice(before, [], s0, START, env) && !StartInOrder(before, [], s0, env)
  {
    hide ReadsTwice, AtRecords, AtRunning, AnswerOf, RecordsAt, StartRecords, StartCalls, StopBelowStart, FirstFailure,
      StopRecordsView;
    env := OnlyFails(s0.tick + StartCalls(s0.hooks, k));
    FailsAt(s0.hooks, s0.tick, k);
    before := TimeOutAtTheEnd(s0, env);
    ViewsAtReads(before, [], s0, START, env, 0);
    RollbackReport(before, [], s0, env);
  }

  lemma GoodReport(before: seq<Action>, between: seq<Action>, s0: State, env: Callbacks)
    requires ReadsTwice(before, between, s0, START, env)
    requires forall k | 0 <= k < |s0.hooks| && s0.hooks[k].onStart.Some? :: !StopBelowStart(s0.hooks, 0, k)
    ensures StartInOrder(before, between, s0, env)
  {
    hide ReadsTwice, AtRecords, AtRunning, AnswerOf, View, RecordsAt, StartCalls;
    StartAnswer(before, between, s0, env);
    if BeforeRollback(AtRunning(before, between, s0, START, env).pc) {
      ReportIsConsistent(before, between, s0, env);
    } else {
      RollbackReport(before, between, s0, env);
      assert Fails(s0.hooks, env, s0.tick, FirstFailure(s0.hooks, env, s0.tick));
    }
  }

  /**
   * Whatever the callbacks return and however the steps of goroutine, context and caller interleave, every
   * report lists only records of this Start and none of a hook later than the one it names, if and only if no
   * earlier Start left records and the hook list has no OnStop callback before an OnStart callback before
   * another OnStart callback.
   */
  lemma StartReportsAreConsistent(s0: State)
    requires CanCall(START, s0)
    ensures
      (forall env: Callbacks, before, between | ReadsTwice(before, between, s0, START, env) ::
         ListsOwn(before, between, s0, START, env) && StartInOrder(before, between, s0, env))
      <==>
      && s0.startRecords == []
      && forall k | 0 <= k < |s0.hooks| && s0.hooks[k].onStart.Some? :: !StopBelowStart(s0.hooks, 0, k)
  {
    hide ReadsTwice, ListsOwn, StartInOrder, StopBelowStart;
    ReportsListOwnRecords(s0, START);
    if k :| 0 <= k < |s0.hooks| && s0.hooks[k].onStart.Some? && StopBelowStart(s0.hooks, 0, k) {
      var env, before := BadReport(s0, k);
      assert ReadsTwice(before, [], s0, START, env) && !StartInOrder(before, [], s0, env);
    } else {
      forall env: Callbacks, before, between | ReadsTwice(before, between, s0, START, env)
        ensures StartInOrder(before, between, s0, env)
      {
        GoodReport(before, between, s0, env);
      }
    }
  }

  /**
   * Every report about Stop lists only records of this Stop and none of a hook earlier than the one it names,
   * if and only if no earlier Stop left records.
   */
  lemma StopReportsAreConsistent(s0: State)
    requires CanCall(StopJob, s0)
    ensures
      (forall env: Callbacks, before, between | ReadsTwice(before, between, s0, StopJob, env) ::
         ListsOwn(before, between, s0, StopJob, env) && StopInOrder(before, between, s0, env))
      <==> s0.stopRecords == []
  {
    hide ReadsTwice, ListsOwn, StopInOrder;
    ReportsListOwnRecords(s0, StopJob);
    forall env: Callbacks, before, between | ReadsTwice(before, between, s0, StopJob, env)
      ensures StopInOrder(before, between, s0, env)
    {
      StopReportIsInOrder(before, between, s0, env);
    }
  }

  lemma StopReportIsInOrder(before: seq<Action>, between: seq<Action>, s0: State, env: Callbacks)
    requires ReadsTwice(before, between, s0, StopJob, env)
    ensures StopInOrder(before, between, s0, env)
  {
    hide ReadsTwice, AtRecords, AtRunning, AnswerOf, NeverEarlier;
    StopReportIsConsistent(before, between, s0, env);
  }

  // ----- A restart that reports stale records -----

  /** The caller gives up and reads the records before the goroutine moves, and then the first hook begins. */
  function EarlyRead(): seq<Action> {
    [ContextEnds(DeadlineExceeded), CallerSeesDone, CallerReads, WorkerMoves, WorkerMoves, WorkerMoves, CallerReads]
  }

  lemma EarlyReadAnswers(s0: State, env: Callbacks)
    requires CanCall(START, s0) && s0.hooks != [] && s0.hooks[0].onStart.Some?
    ensures CanRun(Initial(s0), EarlyRead(), START, env)
    ensures
      var w := Run(Initial(s0), EarlyRead(), START, env);
      && w.s.startRecords == []
      && w.caller == Returned(TimedOut(s0.hooks[0].caller, s0.startRecords))
  {
    var w1 := Act(Initial(s0), ContextEnds(DeadlineExceeded), START, env);
    var w2 := Act(w1, CallerSeesDone, START, env);
    var w3 := Act(w2, CallerReads, START, env);
    var w4 := Act(w3, WorkerMoves, START, env);
    var w5 := Act(w4, WorkerMoves, START, env);
    var w6 := Act(w5, WorkerMoves, START, env);
    var acts := EarlyRead();
    hide WorkerStep, Run, CanRun;
    RunOne(w6, CallerReads, START, env);
    assert acts[6..] == [CallerReads];
    RunFirst(w5, acts[5..], START, env);
    RunFirst(w4, acts[4..], START, env);
    RunFirst(w3, acts[3..], START, env);
    RunFirst(w2, acts[2..], START, env);
    RunFirst(w1, acts[1..], START, env);
    RunFirst(Initial(s0), acts, START, env);
  }

  /** Callbacks that all succeed and append nothing. */
  function Quiet(): Callbacks {
    (n: nat) => Outcome(None, 0, [])
  }

  function TwoHooks(f: Func): seq<Hook> {
    [Hook(Some(f), None, "a"), Hook(Some(f), None, "b")]
  }

  /** The lifecycle of two hooks after one start and one stop. */
  function Restarted(f: Func): State {
    Stop(AppStart(NewState().(hooks := TwoHooks(f)), None, Quiet()).0, Quiet()).0
  }

  lemma RestartedIs(f: Func)
    ensures Restarted(f).numStarted == 0 && TwoHooks(f) <= Restarted(f).hooks
    ensures Restarted(f).startRecords == [HookRecord("a", f, 0), HookRecord("b", f, 0)]
  {
    var s, hs, env := NewState().(hooks := TwoHooks(f)), TwoHooks(f), Quiet();
    assert FirstFailure(hs, env, 0) == 2 by {
      assert forall i | 0 <= i < 2 :: !Fails(hs, env, 0, i);
    }
    assert StartRecords(hs, env, 0, 1) == [HookRecord("a", f, 0)];
    assert StartRecords(hs, env, 0, 2) == [HookRecord("a", f, 0), HookRecord("b", f, 0)];
    hide StartRecords, Start, StopFrom, StartTrace, StartEvents, FirstFailure;
    StartSucceeds(s, env);
  }

  /**
   * Two hooks without OnStop callbacks are started and stopped; then the application is started again under
   * a context that is already over. The report names the first hook and lists both as run, although this
   * Start has recorded none.
   */
  lemma RestartReportsStaleRecords(f: Func, env: Callbacks)
    ensures
      var s0 := Restarted(f);
      && PcOk(Entry, s0) && CanCall(START, s0)
      && CanRun(Initial(s0), EarlyRead(), START, env)
      && var w := Run(Initial(s0), EarlyRead(), START, env);
      && w.s.startRecords == []
      && w.caller == Returned(TimedOut("a", [HookRecord("a", f, 0), HookRecord("b", f, 0)]))
  {
    hide Restarted, Run, CanRun;
    RestartedIs(f);
    assert Restarted(f).hooks[0] == TwoHooks(f)[0];
    EarlyReadAnswers(Restarted(f), env);
  }

  // ----- A concrete rollback -----

  /**
   * Three hooks, of which the first stops cleanly and the third fails to start: the report names the
   * first hook although the second is recorded as well.
   */
  lemma RollbackReportsEarlierHook(f: Func)
    ensures
      var hs := ThreeHooks(f);
      var (s', err) := AppStart(NewState().(hooks := hs), None, OnlyFails(2));
      && err == Some(DeadlineExceeded)
      && s'.running == hs[0]
      && s'.startRecords == [HookRecord("a", f, 0), HookRecord("b", f, 0)]
  {
    var hs, env := ThreeHooks(f), OnlyFails(2);
    ThreeHooksFailAtTwo(f);
    assert LowestStop(hs, 1) == Some(0);
    assert LowestStop(hs, 2) == Some(0);
    assert StopCalls(hs, 1) == 1;
    assert StopCalls(hs, 2) == 1;
    assert CallErrors(env, 3, 1) == [];
    hide AppStart, StartTrace, StopTrace, RollbackErrors, StartRecords, StartCalls, FirstFailure;
    StartIsAllOrNothing(NewState().(hooks := hs), env);
  }

  function ThreeHooks(f: Func): seq<Hook> {
    [Hook(Some(f), Some(f), "a"), Hook(Some(f), None, "b"), Hook(Some(f), None, "c")]
  }

  lemma ThreeHooksFailAtTwo(f: Func)
    ensures FirstFailure(ThreeHooks(f), OnlyFails(2), 0) == 2
    ensures StartCalls(ThreeHooks(f), 2) == 2
    ensures StartRecords(ThreeHooks(f), OnlyFails(2), 0, 2) == [HookRecord("a", f, 0), HookRecord("b", f, 0)]
  {
    var hs, env := ThreeHooks(f), OnlyFails(2);
    assert StartCalls(hs, 1) == 1;
    assert StartCalls(hs, 2) == 2;
    assert !Fails(hs, env, 0, 0) && !Fails(hs, env, 0, 1) && Fails(hs, env, 0, 2);
    assert StartRecords(hs, env, 0, 1) == [HookRecord("a", f, 0)];
  }

  // ----- The report -----

  /**
   * The records of the phase that timed out, longest first, as a private copy: the lifecycle and its own
   * records are untouched.
   */
  method Report(l: Lifecycle, phase: Method) returns (caller: string, r: array<HookRecord>)
    ensures caller == l.runningHook.caller
    ensures fresh(r) && forall i, j | 0 <= i < j < r.Length :: r[i].runtime >= r[j].runtime
    ensures multiset(r[..]) == multiset(if phase == OnStart then l.startRecords else l.stopRecords)
  {
    if phase == OnStart {
      r := l.StartHookRecords();
    } else {
      r := l.StopHookRecords();
    }
    caller := l.RunningHookCaller();
    HookRecords.Sort(r);
  }
}
