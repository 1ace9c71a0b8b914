/** What holds over whole runs of Append, Start, Stop and App.start, in any number and order. */
module LifecycleRuns {
  import opened Errors
  import opened Events
  import opened LifecycleSpec
  import opened LifecycleFacts
  import opened AppSpec

  // ----- The stack discipline of a trace -----

  /**
   * The stack of started hooks after a step. A hook starts only on top of all hooks before it, and only
   * the hook on top is stopped; any other step leaves no stack at all.
   */
  function Next(stack: Option<seq<nat>>, step: Step): Option<seq<nat>> {
    if stack.None? then None
    else
      var st := stack.value;
      match step
      case StartCall(i) => if i == |st| then stack else None
      case Push(i) => if i !in st then Some(st + [i]) else None
      case StopCall(i) => if st != [] && st[|st| - 1] == i then stack else None
      case Pop(i) => if st != [] && st[|st| - 1] == i then Some(st[..|st| - 1]) else None
  }

  function Replay(tr: seq<Step>): Option<seq<nat>> {
    if tr == [] then Some([]) else Next(Replay(tr[..|tr| - 1]), tr[|tr| - 1])
  }

  /** The stack is [0, 1, .., n-1] for some n. */
  predicate IsRange(stack: Option<seq<nat>>) {
    stack.Some? && forall j | 0 <= j < |stack.value| :: stack.value[j] == j
  }

  /** At every point of the trace the started hooks are exactly the first few, stacked in index order. */
  ghost predicate Orderly(tr: seq<Step>) {
    forall p | 0 <= p <= |tr| :: IsRange(Replay(tr[..p]))
  }

  /** The trace is orderly and leaves exactly the first n hooks started. */
  ghost predicate OrderlyUpTo(tr: seq<Step>, n: nat) {
    Orderly(tr) && IsRange(Replay(tr)) && |Replay(tr).value| == n
  }

  /** The height after a step that keeps the stack a range; None if the step does not. */
  function Height(n: nat, step: Step): Option<nat> {
    match step
    case StartCall(i) => if i == n then Some(n) else None
    case Push(i) => if i == n then Some(n + 1) else None
    case StopCall(i) => if i + 1 == n then Some(n) else None
    case Pop(i) => if i + 1 == n then Some(i) else None
  }

  lemma NothingIsOrderly(tr: seq<Step>)
    requires tr == []
    ensures OrderlyUpTo(tr, 0)
  {
    assert tr[..0] == tr;
  }

  lemma OrderlyStep(tr: seq<Step>, n: nat, step: Step)
    requires OrderlyUpTo(tr, n) && Height(n, step).Some?
    ensures OrderlyUpTo(tr + [step], Height(n, step).value)
  {
    var all := tr + [step];
    assert all[..|tr|] == tr;
    assert IsRange(Replay(all)) && |Replay(all).value| == Height(n, step).value;
    forall p | 0 <= p <= |all|
      ensures IsRange(Replay(all[..p]))
    {
      if p <= |tr| {
        assert all[..p] == tr[..p];
      } else {
        assert all[..p] == all;
      }
    }
  }

  /** Starting the hook after the first i, and stopping the last of the first i + 1. */
  lemma HookOrderly(tr: seq<Step>, h: Hook, i: nat)
    ensures OrderlyUpTo(tr, i) ==> OrderlyUpTo(tr + Starting(h, i), i + 1)
    ensures OrderlyUpTo(tr, i + 1) ==> OrderlyUpTo(tr + Stopping(h, i), i)
  {
    hide OrderlyUpTo;
    assert tr + [StartCall(i)] + [Push(i)] == tr + [StartCall(i), Push(i)];
    assert tr + [StopCall(i)] + [Pop(i)] == tr + [StopCall(i), Pop(i)];
    if OrderlyUpTo(tr, i) {
      OrderlyStep(tr, i, StartCall(i));
      OrderlyStep(tr + [StartCall(i)], i, Push(i));
      OrderlyStep(tr, i, Push(i));
    }
    if OrderlyUpTo(tr, i + 1) {
      OrderlyStep(tr, i + 1, StopCall(i));
      OrderlyStep(tr + [StopCall(i)], i + 1, Pop(i));
      OrderlyStep(tr, i + 1, Pop(i));
    }
  }

  lemma {:induction false} StartTraceOrderly(tr: seq<Step>, hs: seq<Hook>, k: nat)
    requires k <= |hs| && OrderlyUpTo(tr, 0)
    ensures OrderlyUpTo(tr + StartTrace(hs, k), k)
  {
    hide OrderlyUpTo, Starting;
    if k == 0 {
      assert tr + StartTrace(hs, 0) == tr;
    } else {
      StartTraceOrderly(tr, hs, k - 1);
      HookOrderly(tr + StartTrace(hs, k - 1), hs[k - 1], k - 1);
      assert tr + StartTrace(hs, k) == tr + StartTrace(hs, k - 1) + Starting(hs[k - 1], k - 1);
    }
  }

  lemma {:induction false} StopTraceOrderly(tr: seq<Step>, hs: seq<Hook>, n: nat)
    requires n <= |hs| && OrderlyUpTo(tr, n)
    ensures OrderlyUpTo(tr + StopTrace(hs, n), 0)
    decreases n
  {
    hide OrderlyUpTo, Stopping;
    if n == 0 {
      assert tr + StopTrace(hs, 0) == tr;
    } else {
      HookOrderly(tr, hs[n - 1], n - 1);
      StopTraceOrderly(tr + Stopping(hs[n - 1], n - 1), hs, n - 1);
      assert tr + StopTrace(hs, n) == tr + Stopping(hs[n - 1], n - 1) + StopTrace(hs, n - 1);
    }
  }

  // ----- One operation -----

  /** Every state a client can bring a lifecycle into. */
  ghost predicate Good(s: State) {
    s.numStarted <= |s.hooks| && OrderlyUpTo(s.trace, s.numStarted)
  }

  lemma StartKeepsGood(s: State, env: Callbacks)
    requires Good(s) && s.numStarted == 0
    ensures Good(Start(s, env).0)
  {
    var hs, k := s.hooks, FirstFailure(s.hooks, env, s.tick);
    StartTraceOrderly(s.trace, hs, k);
    if k < |hs| {
      OrderlyStep(s.trace + StartTrace(hs, k), k, StartCall(k));
    }
    hide Start, OrderlyUpTo, StartTrace, StartEvents, StartRecords, Appended;
    StartOutcome(s, env);
  }

  lemma StopKeepsGood(s: State, env: Callbacks)
    requires Good(s)
    ensures Good(Stop(s, env).0) && Stop(s, env).0.numStarted == 0
  {
    hide OrderlyUpTo, Stop, StopTrace, StopEvents, StopRecords, Appended, CallErrors;
    StopOutcome(s, s.hooks, env);
    StopTraceOrderly(s.trace, s.hooks, s.numStarted);
  }

  lemma AppStartKeepsGood(s: State, initErr: Option<Error>, env: Callbacks)
    requires Good(s) && s.numStarted == 0
    ensures Good(AppStart(s, initErr, env).0)
  {
    hide OrderlyUpTo, Start, Stop;
    StartKeepsGood(s, env);
    var (started, err) := Start(s, env);
    if initErr.None? && err.Some? {
      StopKeepsGood(started.Log(Rollback(err.value)), env);
    }
  }

  lemma {:induction false} LostStackStaysLost(tr: seq<Step>, more: seq<Step>)
    requires Replay(tr).None?
    ensures Replay(tr + more).None?
  {
    if more == [] {
      assert tr + more == tr;
    } else {
      assert (tr + more)[..|tr + more| - 1] == tr + more[..|more| - 1];
      LostStackStaysLost(tr, more[..|more| - 1]);
    }
  }

  lemma {:induction false} StartTraceBeginsAtZero(hs: seq<Hook>, k: nat)
    requires 0 < k <= |hs|
    ensures StartTrace(hs, k) != [] && StartTrace(hs, k)[0] in {StartCall(0), Push(0)}
  {
    if k > 1 {
      StartTraceBeginsAtZero(hs, k - 1);
    } else {
      assert StartTrace(hs, 1) == Starting(hs[0], 0);
    }
  }

  /** Beginning hook 0 again while hook 0 is started loses the stack for good. */
  lemma RestartLosesStack(tr: seq<Step>, n: nat, added: seq<Step>)
    requires OrderlyUpTo(tr, n) && n > 0
    requires added != [] && added[0] in {StartCall(0), Push(0)}
    ensures Replay(tr + added).None?
  {
    var first := tr + [added[0]];
    assert first[..|tr|] == tr;
    assert Replay(tr).value[0] == 0;
    LostStackStaysLost(first, added[1..]);
    assert first + added[1..] == tr + added;
  }

  /**
   * Start does not reset numStarted, so it keeps the discipline exactly when nothing is started on entry:
   * entered with a positive count it begins hook 0 again on top of the hooks already started.
   */
  lemma StartNeedsFreshCursor(s: State, env: Callbacks)
    requires Good(s)
    ensures Good(Start(s, env).0) <==> s.numStarted == 0
  {
    if s.numStarted == 0 {
      StartKeepsGood(s, env);
    } else {
      var hs, k := s.hooks, FirstFailure(s.hooks, env, s.tick);
      var added := StartTrace(hs, k) + if k < |hs| then [StartCall(k)] else [];
      if k > 0 {
        StartTraceBeginsAtZero(hs, k);
      }
      hide Start, StartTrace, StartEvents, StartRecords, Appended, Orderly, Replay;
      StartOutcome(s, env);
      assert Start(s, env).0.trace == s.trace + added;
      RestartLosesStack(s.trace, s.numStarted, added);
    }
  }

  /** Two Starts in a row on one hook without callbacks: more hooks count as started than there are. */
  lemma DoubleStartOverruns(env: Callbacks)
    ensures
      var once := Start(NewState().(hooks := [NO_HOOK]), env).0;
      var twice := Start(once, env).0;
      once.numStarted == |once.hooks| == 1 && twice.numStarted == 2 > |twice.hooks|
  {
    var s := NewState().(hooks := [NO_HOOK]);
    var once := s.(numStarted := 1, trace := [Push(0)]);
    assert StartRound(s, NO_HOOK, 0, env).CountUp(0) == once;
    assert StartFrom(once, [NO_HOOK], 1, env) == (once, None);
    assert Start(s, env) == (once, None);
    assert StartFrom(once.CountUp(0), [NO_HOOK], 1, env) == (once.CountUp(0), None);
  }

  // ----- Runs -----

  datatype Op = AppendOp(hook: Hook) | StartOp | StopOp | AppStartOp

  predicate CanDo(s: State, op: Op) {
    && s.numStarted <= |s.hooks|
    && (op.StartOp? || op.AppStartOp? ==> s.numStarted == 0)
  }

  function Do(s: State, op: Op, initErr: Option<Error>, env: Callbacks): (State, Option<Error>)
    requires CanDo(s, op)
  {
    match op
    case AppendOp(h) => (s.(hooks := s.hooks + [h]), None)
    case StartOp => Start(s, env)
    case StopOp => Stop(s, env)
    case AppStartOp => AppStart(s, initErr, env)
  }

  /** Every operation of the run is entered in a state that allows it. */
  predicate CanRun(s: State, ops: seq<Op>, initErr: Option<Error>, env: Callbacks)
    decreases |ops|
  {
    ops == [] || (CanDo(s, ops[0]) && CanRun(Do(s, ops[0], initErr, env).0, ops[1..], initErr, env))
  }

  function Run(s: State, ops: seq<Op>, initErr: Option<Error>, env: Callbacks): State
    requires CanRun(s, ops, initErr, env)
    decreases |ops|
  {
    if ops == [] then s else Run(Do(s, ops[0], initErr, env).0, ops[1..], initErr, env)
  }

  lemma DoKeepsGood(s: State, op: Op, initErr: Option<Error>, env: Callbacks)
    requires Good(s) && CanDo(s, op)
    ensures Good(Do(s, op, initErr, env).0)
  {
    hide Start, Stop, AppStart, OrderlyUpTo;
    match op
    case AppendOp(_) =>
    case StartOp => StartKeepsGood(s, env);
    case StopOp => StopKeepsGood(s, env);
    case AppStartOp => AppStartKeepsGood(s, initErr, env);
  }

  lemma {:induction false} RunKeepsGood(s: State, ops: seq<Op>, initErr: Option<Error>, env: Callbacks)
    requires Good(s) && CanRun(s, ops, initErr, env)
    ensures Good(Run(s, ops, initErr, env))
    decreases |ops|
  {
    if ops != [] {
      hide Do, Good;
      DoKeepsGood(s, ops[0], initErr, env);
      RunKeepsGood(Do(s, ops[0], initErr, env).0, ops[1..], initErr, env);
    }
  }

  /** Between two ranges, a step changes the height as Height says. */
  lemma HeightOfRanges(stack: Option<seq<nat>>, step: Step)
    requires IsRange(stack) && IsRange(Next(stack, step))
    ensures Height(|stack.value|, step) == Some(|Next(stack, step).value|)
  {
    if step.Push? {
      assert Next(stack, step).value[|stack.value|] == step.index;
    }
  }

  /** How often each hook was started exceeds how often it was stopped by one if it is on the stack. */
  lemma {:induction false} BalanceOfOrderly(tr: seq<Step>, n: nat, i: nat)
    requires OrderlyUpTo(tr, n)
    ensures Count(tr, Push(i)) - Count(tr, Pop(i)) == if i < n then 1 else 0
  {
    if tr != [] {
      var last, before := tr[|tr| - 1], tr[..|tr| - 1];
      forall p | 0 <= p <= |before|
        ensures IsRange(Replay(before[..p]))
      {
        assert before[..p] == tr[..p];
      }
      assert before[..|before|] == before;
      assert tr[..|tr|] == tr;
      HeightOfRanges(Replay(before), last);
      BalanceOfOrderly(before, |Replay(before).value|, i);
    }
  }

  /**
   * The stack discipline over every run from a new lifecycle: the started hooks are always exactly
   * 0..numStarted-1, the stack never underflows, no more hooks count as started than exist, and each
   * hook was started once more than it was stopped if it is among them, and equally often if not.
   */
  lemma RunsAreOrderly(ops: seq<Op>, initErr: Option<Error>, env: Callbacks, i: nat)
    requires CanRun(NewState(), ops, initErr, env)
    ensures
      var s := Run(NewState(), ops, initErr, env);
      && s.numStarted <= |s.hooks|
      && OrderlyUpTo(s.trace, s.numStarted)
      && Count(s.trace, Push(i)) - Count(s.trace, Pop(i)) == (if i < s.numStarted then 1 else 0)
  {
    NothingIsOrderly([]);
    RunKeepsGood(NewState(), ops, initErr, env);
    var s := Run(NewState(), ops, initErr, env);
    hide Run;
    BalanceOfOrderly(s.trace, s.numStarted, i);
  }

  lemma {:induction false} RunAppended(s: State, ops: seq<Op>, op: Op, initErr: Option<Error>, env: Callbacks)
    requires CanRun(s, ops, initErr, env)
    ensures CanRun(s, ops + [op], initErr, env) <==> CanDo(Run(s, ops, initErr, env), op)
    ensures CanDo(Run(s, ops, initErr, env), op) ==>
      Run(s, ops + [op], initErr, env) == Do(Run(s, ops, initErr, env), op, initErr, env).0
    decreases |ops|
  {
    var all := ops + [op];
    hide Do, CanDo;
    if ops == [] {
      assert all[0] == op && all[1..] == [];
      if CanDo(s, op) {
        NothingMore(Do(s, op, initErr, env).0, initErr, env);
      }
    } else {
      assert all[0] == ops[0] && all[1..] == ops[1..] + [op];
      RunAppended(Do(s, ops[0], initErr, env).0, ops[1..], op, initErr, env);
    }
  }

  lemma NothingMore(s: State, initErr: Option<Error>, env: Callbacks)
    ensures CanRun(s, [], initErr, env) && Run(s, [], initErr, env) == s
  {
  }

  /**
   * Any run can go on with any operation, except for a start while something counts as started. Append adds
   * its hook and does nothing else; Start runs through the hooks up to the first that fails; Stop undoes all
   * that counts as started; and App.start does the one and, if a hook fails, the other.
   */
  lemma RunsGoOn(ops: seq<Op>, op: Op, initErr: Option<Error>, env: Callbacks)
    requires CanRun(NewState(), ops, initErr, env)
    ensures
      CanRun(NewState(), ops + [op], initErr, env) <==>
      (op.StartOp? || op.AppStartOp? ==> Run(NewState(), ops, initErr, env).numStarted == 0)
    ensures CanRun(NewState(), ops + [op], initErr, env) ==>
      var s, s' := Run(NewState(), ops, initErr, env), Run(NewState(), ops + [op], initErr, env);
      var hs, k := s.hooks, FirstFailure(s.hooks, env, s.tick);
      match op
      case AppendOp(h) => s' == s.(hooks := hs + [h])
      case StopOp =>
        s.numStarted <= |hs| && s'.numStarted == 0 && s'.trace == s.trace + StopTrace(hs, s.numStarted)
      case StartOp =>
        && s'.numStarted == k
        && s'.trace == s.trace + StartTrace(hs, k) + if k < |hs| then [StartCall(k)] else []
      case AppStartOp =>
        if initErr.Some? then s' == s
        else if k == |hs| then s'.numStarted == k && s'.trace == s.trace + StartTrace(hs, k)
        else s'.numStarted == 0 && s'.trace == s.trace + StartTrace(hs, k) + [StartCall(k)] + StopTrace(hs, k)
  {
    hide Run, CanRun, Start, Stop, AppStart, StartTrace, StopTrace, StartEvents, StopEvents, StartRecords, StopRecords,
      Appended, CallErrors, FirstFailure, OrderlyUpTo;
    var s := Run(NewState(), ops, initErr, env);
    NothingIsOrderly([]);
    RunKeepsGood(NewState(), ops, initErr, env);
    RunAppended(NewState(), ops, op, initErr, env);
    if CanDo(s, op) {
      match op
      case AppendOp(_) =>
      case StopOp => StopOutcome(s, s.hooks, env);
      case StartOp => StartLeaves(s, env);
      case AppStartOp => AppStartLeaves(s, initErr, env);
    }
  }

  lemma StartLeaves(s: State, env: Callbacks)
    requires s.numStarted == 0
    ensures
      var hs, k, s' := s.hooks, FirstFailure(s.hooks, env, s.tick), Start(s, env).0;
      && s'.numStarted == k
      && s'.trace == s.trace + StartTrace(hs, k) + if k < |hs| then [StartCall(k)] else []
  {
    hide Start, StartTrace, StartEvents, StartRecords, Appended;
    StartOutcome(s, env);
    if FirstFailure(s.hooks, env, s.tick) == |s.hooks| {
      assert Start(s, env).0.trace + [] == Start(s, env).0.trace;
    }
  }

  lemma AppStartLeaves(s: State, initErr: Option<Error>, env: Callbacks)
    requires s.numStarted == 0
    ensures
      var hs, k, s' := s.hooks, FirstFailure(s.hooks, env, s.tick), AppStart(s, initErr, env).0;
      if initErr.Some? then s' == s
      else if k == |hs| then s'.numStarted == k && s'.trace == s.trace + StartTrace(hs, k)
      else s'.numStarted == 0 && s'.trace == s.trace + StartTrace(hs, k) + [StartCall(k)] + StopTrace(hs, k)
  {
    if initErr.None? {
      hide AppStart, StartTrace, StopTrace, StartEvents, StartRecords, StopRecords, RollbackErrors, FailedStartEvents;
      if FirstFailure(s.hooks, env, s.tick) == |s.hooks| {
        StartSucceeds(s, env);
      } else {
        StartIsAllOrNothing(s, env);
      }
    }
  }

  // ----- Dependencies -----

  /** The hooks started once the first p steps of the trace happened. */
  function StartedAt(tr: seq<Step>, p: nat): set<nat>
    requires p <= |tr|
  {
    var stack := Replay(tr[..p]);
    if stack.Some? then set j | j in stack.value else {}
  }

  /** Hooks are registered in dependency order: a hook depends only on hooks with a lower index. */
  ghost predicate Topological(dependsOn: (nat, nat) -> bool) {
    forall i: nat, j: nat :: dependsOn(i, j) ==> j < i
  }

  /**
   * At every step of an orderly trace the started hooks are closed under dependencies; the OnStart
   * callback of a hook begins only when all it depends on is started, and its OnStop callback only when
   * nothing that depends on it is started any more.
   */
  lemma DependencyOrder(tr: seq<Step>, dependsOn: (nat, nat) -> bool, p: nat, i: nat, j: nat)
    requires Orderly(tr) && p <= |tr| && Topological(dependsOn) && dependsOn(i, j)
    ensures i in StartedAt(tr, p) ==> j in StartedAt(tr, p)
    ensures p < |tr| && tr[p] == StartCall(i) ==> j in StartedAt(tr, p)
    ensures p < |tr| && tr[p] == StopCall(j) ==> i !in StartedAt(tr, p)
  {
    var n := |Replay(tr[..p]).value|;
    assert IsRange(Replay(tr[..p]));
    forall x: nat
      ensures x in StartedAt(tr, p) <==> x < n
    {
      if x < n {
        assert Replay(tr[..p]).value[x] == x;
      }
    }
    if p < |tr| {
      assert tr[..p + 1][..p] == tr[..p];
      assert IsRange(Replay(tr[..p + 1]));
    }
  }

  /** Hence over every run from a new lifecycle, at every step, dependencies are respected. */
  lemma RunsRespectDependencies(ops: seq<Op>, initErr: Option<Error>, env: Callbacks,
                                dependsOn: (nat, nat) -> bool, p: nat, i: nat, j: nat)
    requires CanRun(NewState(), ops, initErr, env) && Topological(dependsOn) && dependsOn(i, j)
    requires p <= |Run(NewState(), ops, initErr, env).trace|
    ensures
      var tr := Run(NewState(), ops, initErr, env).trace;
      && (i in StartedAt(tr, p) ==> j in StartedAt(tr, p))
      && (p < |tr| && tr[p] == StartCall(i) ==> j in StartedAt(tr, p))
      && (p < |tr| && tr[p] == StopCall(j) ==> i !in StartedAt(tr, p))
  {
    hide Run, CanRun, StartedAt, Orderly;
    RunsAreOrderly(ops, initErr, env, i);
    DependencyOrder(Run(NewState(), ops, initErr, env).trace, dependsOn, p, i, j);
  }

  // ----- Re-entrant Append -----

  /**
   * Callbacks may append any number of hooks: a Start still visits only the hooks present on entry, keeps
   * them where they are, and a later Start after Stop begins at index 0 of the enlarged list.
   */
  lemma AppendDuringStart(s: State, env: Callbacks)
    requires s.numStarted == 0
    ensures
      var started := Start(s, env).0;
      var stopped := Stop(started, env).0;
      && s.hooks <= started.hooks <= stopped.hooks
      && started.numStarted <= |s.hooks|
      && started.tick <= s.tick + |s.hooks|
      && stopped.trace == started.trace + StopTrace(s.hooks, started.numStarted)
      && stopped.numStarted == 0
      && (FirstFailure(stopped.hooks, env, stopped.tick) == |stopped.hooks| ==>
            Start(stopped, env).0.trace == stopped.trace + StartTrace(stopped.hooks, |stopped.hooks|))
  {
    var started := Start(s, env).0;
    var stopped := Stop(started, env).0;
    assert started.tick <= s.tick + |s.hooks| by {
      hide Start, StartTrace, StartEvents, StartRecords, Appended;
      StartOutcome(s, env);
      var k := FirstFailure(s.hooks, env, s.tick);
      assert StartCalls(s.hooks, k) <= k;
    }
    hide Start, Stop, StartTrace, StopTrace, StartEvents, StopEvents, StartRecords, StopRecords, Appended, CallErrors;
    StopOutcome(started, s.hooks, env);
    StartOutcome(stopped, env);
  }

  // ----- A failed initialization -----

  /** What an application whose New failed may do: append hooks, start and stop. */
  predicate AppOnly(ops: seq<Op>) {
    forall j | 0 <= j < |ops| :: !ops[j].StartOp?
  }

  /**
   * An initialization error is sticky: through any run, every start returns that same error, every stop
   * returns nil, no callback ever runs, and nothing ever counts as started.
   */
  lemma {:induction false} InitErrorIsSticky(s: State, ops: seq<Op>, err: Error, env: Callbacks)
    requires s.numStarted == 0 && AppOnly(ops)
    ensures CanRun(s, ops, Some(err), env)
    ensures
      var s' := Run(s, ops, Some(err), env);
      && s'.numStarted == 0 && s'.tick == s.tick && s'.trace == s.trace && s'.events == s.events
      && AppStart(s', Some(err), env) == (s', Some(err))
      && Stop(s', env) == (s'.(stopRecords := []), None)
    decreases |ops|
  {
    if ops != [] {
      assert Stop(s, env) == (s.(stopRecords := []), None);
      var next := Do(s, ops[0], Some(err), env).0;
      hide Start, StartFrom, StopFrom;
      InitErrorIsSticky(next, ops[1..], err, env);
    }
  }
}
