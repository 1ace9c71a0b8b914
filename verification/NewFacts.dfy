/**
 * What the phases of New come to, spelled out on the options, on the answers of the container, and on what an
 * application can be asked afterwards.
 */
module NewFacts {
  import opened Errors
  import opened Events
  import opened Options
  import opened NewSpec

  // ----- Which provides are registered -----

  lemma {:induction false} EntryAt(ps: seq<Provide>, i: nat)
    requires i < |ps|
    ensures EntriesOf(ps)[i] == ProvidedConstructor(ps[i].target)
    ensures EntriesOf(ps[..i]) == EntriesOf(ps)[..i]
  {
    var before := ps[..|ps| - 1];
    if i < |ps| - 1 {
      EntryAt(before, i);
      assert ps[..i] == before[..i];
    }
  }

  /** fx refuses the constructor itself. */
  predicate IsRefusedUnasked(t: Target) {
    match t
    case OptionTarget(_) => true
    case Annotated(name, group, _) => name != "" && group != ""
    case Constructor(_, returnsAnnotated) => returnsAnnotated
    case _ => false
  }

  /**
   * The container holds exactly the provides before the first one that fails; those of fx come last, and if an
   * error was given as an option there are none. A provide is refused without asking the container exactly if
   * it is an fx.Option, an fx.Annotated with a name and a group, or returns fx.Annotated; any other one that is
   * reached is registered exactly if the container accepts it, and otherwise Err carries the container's error.
   */
  lemma RegisteredIsMaximal(c: Config, dig: Dig)
    ensures
      var ps := c.constructors + [Provide(LifecycleConstructor, false), Provide(ShutdownerConstructor, false),
                                  Provide(DotGraphConstructor, false)];
      var es, err := EntriesBeforeLogger(c, dig), ProvideErr(c, dig);
      && |es| <= |ps|
      && (forall i | 0 <= i < |es| :: es[i] == ProvidedConstructor(ps[i].target))
      && (c.err.Some? ==> es == [] && err == c.err)
      && (c.err.None? ==>
            && (forall i | 0 <= i < |es| :: !IsRefusedUnasked(ps[i].target) && dig.provide(es[..i], es[i]).None?)
            && (err.None? <==> |es| == |ps|)
            && (|es| < |ps| ==>
                  var t, refused := ps[|es|].target, dig.provide(es, ProvidedConstructor(ps[|es|].target));
                  if t.OptionTarget? then err == Some(Reported(OptionProvided, TargetId(t), None))
                  else if t.Annotated? && t.name != "" && t.group != ""
                  then err == Some(Reported(NameAndGroup, TargetId(t), None))
                  else if t.Constructor? && t.returnsAnnotated
                  then err == Some(Reported(ReturnsAnnotated, TargetId(t), None))
                  else refused.Some? && err == Some(Reported(ProvideFailed, TargetId(t), refused))))
  {
    var ps, n := AllProvides(c), NumRegistered(c, dig);
    var es := EntriesBeforeLogger(c, dig);
    forall i | 0 <= i < n
      ensures es[i] == ProvidedConstructor(ps[i].target) && EntriesOf(ps[..i]) == es[..i]
    {
      EntryAt(ps[..n], i);
      assert ps[..n][..i] == ps[..i];
    }
    if c.err.None? {
      forall i | 0 <= i < n
        ensures !IsRefusedUnasked(ps[i].target) && dig.provide(es[..i], es[i]).None?
      {
        assert !Refused(dig, ps, i);
      }
      if n < |ps| {
        assert Refused(dig, ps, n);
      }
    }
  }

  /** The user's value that a target stands for, if it is not one of fx's own constructors. */
  function UserValue(t: Target): Option<nat> {
    match t
    case OptionTarget(id) => Some(id)
    case Annotated(_, _, target) => Some(target)
    case Constructor(fn, _) => Some(fn)
    case OtherValue(id) => Some(id)
    case _ => None
  }

  /** Logs and errors name the same thing for two targets exactly if they stand for the same. */
  lemma TargetIdsAreFaithful(t: Target, u: Target)
    ensures TargetId(t) == TargetId(u) <==> UserValue(t) == UserValue(u) && (UserValue(t).None? ==> t == u)
  {
  }

  // ----- Which invokes run -----

  lemma {:induction false} CallsOfAt(fns: seq<Invoke>, i: nat)
    requires i < |fns| && forall j | 0 <= j < |fns| :: fns[j].InvokeFn?
    ensures |CallsOf(fns)| == |fns|
    ensures CallsOf(fns)[i] == RunFn(fns[i].fn)
    ensures CallsOf(fns[..i]) == CallsOf(fns)[..i]
  {
    var before := fns[..|fns| - 1];
    if before != [] {
      CallsOfAt(before, if i < |fns| - 1 then i else 0);
    }
    if i < |fns| - 1 {
      assert fns[..i] == before[..i];
    } else {
      assert fns[..i] == before;
    }
  }

  lemma CallsOfLength(fns: seq<Invoke>)
    requires forall j | 0 <= j < |fns| :: fns[j].InvokeFn?
    ensures |CallsOf(fns)| == |fns|
  {
    if fns != [] {
      CallsOfAt(fns, 0);
    }
  }

  lemma BadInvokeMeans(c: Config, dig: Dig)
    ensures
      var es, b, m := EntriesAfterNew(c, dig), LoggerCalls(c, dig), BadInvoke(c, dig);
      && (forall j | 0 <= j < m ::
            c.invokes[j].InvokeFn? &&
            dig.invoke(es, b + CallsOf(c.invokes[..j]), RunFn(c.invokes[j].fn)).err.None?)
      && if m == |c.invokes| then InvokeErr(c, dig).None?
         else
           InvokeErr(c, dig).Some? &&
           match c.invokes[m]
           case InvokeOption(id) => InvokeErr(c, dig) == Some(Reported(OptionInvoked, id, None))
           case InvokeFn(fn) => InvokeErr(c, dig) == dig.invoke(es, b + CallsOf(c.invokes[..m]), RunFn(fn)).err
  {
    hide EntriesAfterNew, LoggerCalls, CallsOf;
    var es, b, m := EntriesAfterNew(c, dig), LoggerCalls(c, dig), BadInvoke(c, dig);
    forall j | 0 <= j < m
      ensures c.invokes[j].InvokeFn? &&
        dig.invoke(es, b + CallsOf(c.invokes[..j]), RunFn(c.invokes[j].fn)).err.None?
    {
      assert !InvokeFails(dig, es, b, c.invokes, j);
    }
    if m < |c.invokes| {
      assert InvokeFails(dig, es, b, c.invokes, m);
    }
  }

  /** The calls to the container: to build the logger, the invokes that succeed, and the one that fails. */
  lemma CallsAre(c: Config, dig: Dig)
    requires ReachesInvokes(c, dig)
    ensures
      var m := BadInvoke(c, dig);
      && |CallsOf(c.invokes[..m])| == m
      && NewCalls(c, dig) == LoggerCalls(c, dig) + CallsOf(c.invokes[..m]) +
           if m < |c.invokes| then CallOf(c.invokes[m]) else []
  {
    hide EntriesAfterNew, LoggerCalls, CallsOf, CallOf, InvokeFails, BadInvoke, LoggerErr, ProvideErr;
    var m := BadInvoke(c, dig);
    BadInvokeMeans(c, dig);
    CallsOfLength(c.invokes[..m]);
    if m < |c.invokes| {
      CallsOfNext(c.invokes, m);
    } else {
      assert c.invokes[..m] == c.invokes;
    }
  }

  /** The j-th invoke, if it comes before the first failing one, was passed to the container, and succeeded. */
  lemma EarlierInvokesSucceed(c: Config, dig: Dig, j: nat)
    requires ReachesInvokes(c, dig) && j < BadInvoke(c, dig)
    ensures
      var calls, k := NewCalls(c, dig), |LoggerCalls(c, dig)| + j;
      && c.invokes[j].InvokeFn?
      && k < |calls| && calls[k] == RunFn(c.invokes[j].fn)
      && dig.invoke(EntriesAfterNew(c, dig), calls[..k], calls[k]).err.None?
  {
    hide EntriesAfterNew, LoggerCalls, CallsOf, CallOf, InvokeFails, BadInvoke, ReachesInvokes, NewCalls;
    var done := c.invokes[..BadInvoke(c, dig)];
    CallsAre(c, dig);
    BadInvokeMeans(c, dig);
    CallsOfAt(done, j);
    assert done[..j] == c.invokes[..j];
    assert NewCalls(c, dig)[..|LoggerCalls(c, dig)| + j] == LoggerCalls(c, dig) + CallsOf(c.invokes[..j]);
  }

  /**
   * The first failing invoke is an fx.Option, which the container is not asked to run, or its error is that of
   * the container; nothing is passed to the container after it.
   */
  lemma FailedInvokeIsLast(c: Config, dig: Dig)
    requires ReachesInvokes(c, dig)
    ensures
      var calls, k, m := NewCalls(c, dig), |LoggerCalls(c, dig)| + BadInvoke(c, dig), BadInvoke(c, dig);
      && k <= |calls| && LoggerCalls(c, dig) <= calls
      && if m == |c.invokes| then |calls| == k && InvokeErr(c, dig).None?
         else
           InvokeErr(c, dig).Some? &&
           match c.invokes[m]
           case InvokeOption(id) => |calls| == k && InvokeErr(c, dig) == Some(Reported(OptionInvoked, id, None))
           case InvokeFn(fn) =>
             && calls == calls[..k] + [RunFn(fn)]
             && InvokeErr(c, dig) == dig.invoke(EntriesAfterNew(c, dig), calls[..k], RunFn(fn)).err
  {
    hide EntriesAfterNew, LoggerCalls, CallsOf, InvokeFails, BadInvoke, ReachesInvokes, NewCalls, InvokeErr;
    var m := BadInvoke(c, dig);
    CallsAre(c, dig);
    BadInvokeMeans(c, dig);
    assert NewCalls(c, dig)[..|LoggerCalls(c, dig)| + m] == LoggerCalls(c, dig) + CallsOf(c.invokes[..m]);
  }

  /** Err is the option's or provide's error, with the logger's added to it, or else that of the failed invoke. */
  lemma NewErrIs(c: Config, dig: Dig)
    ensures
      ErrorsOf(NewErr(c, dig)) ==
        ErrorsOf(ProvideErr(c, dig)) + ErrorsOf(LoggerErr(c, dig)) +
        (if ReachesInvokes(c, dig) then ErrorsOf(InvokeErr(c, dig)) else [])
    ensures LoggerErr(c, dig).None? ==>
      NewErr(c, dig) == if ProvideErr(c, dig).Some? then ProvideErr(c, dig) else InvokeErr(c, dig)
  {
    hide ProvideErr, LoggerErr, InvokeErr;
    AppendIsCombine(ProvideErr(c, dig), LoggerErr(c, dig));
  }

  /**
   * Unless the application only validates, the hooks are those that the calls to the container appended, call
   * by call, in order.
   */
  lemma {:induction false} HooksAreInCallOrder(c: Config, dig: Dig, entries: seq<Entry>, calls: seq<Call>, i: nat)
    requires i < |calls|
    ensures c.validate ==> HooksOf(c, dig, entries, calls) == []
    ensures
      var earlier, appended := HooksOf(c, dig, entries, calls[..i]), dig.invoke(entries, calls[..i], calls[i]).appended;
      !c.validate ==> earlier + appended <= HooksOf(c, dig, entries, calls)
    ensures i == |calls| - 1 && !c.validate ==>
      |HooksOf(c, dig, entries, calls)| ==
      |HooksOf(c, dig, entries, calls[..i])| + |dig.invoke(entries, calls[..i], calls[i]).appended|
  {
    var before := calls[..|calls| - 1];
    if i < |calls| - 1 {
      HooksAreInCallOrder(c, dig, entries, before, i);
      assert before[..i] == calls[..i];
    }
  }

  // ----- What New ends with -----

  /** All of fx.Provide and fx.Supply, and fx's own constructors, are in the container. */
  predicate AllRegistered(c: Config, entries: seq<Entry>) {
    EntriesOf(AllProvides(c)) <= entries
  }

  /** The container holds everything exactly if no error was given and no provide failed. */
  lemma AllRegisteredMeans(c: Config, dig: Dig)
    ensures AllRegistered(c, EntriesAfterNew(c, dig)) <==> NumRegistered(c, dig) == |AllProvides(c)|
  {
    hide EntriesOf, NumRegistered, AllProvides, LoggerAccepted;
    var ps, n := AllProvides(c), NumRegistered(c, dig);
    if n < |ps| {
      EntryAt(ps, n);
    } else {
      assert ps[..n] == ps;
    }
  }

  /** Building the logger of fx.WithLogger succeeds. */
  predicate LoggerBuilt(dig: Dig, ctor: nat, entries: seq<Entry>) {
    LoggerConstructor(ctor) in entries && dig.invoke(entries, [], BuildLogger).err.None?
  }

  lemma LoggerBuiltMeans(c: Config, dig: Dig)
    requires c.logConstructor.Some?
    ensures LoggerBuilt(dig, c.logConstructor.value, EntriesAfterNew(c, dig)) <==> LoggerErr(c, dig).None?
  {
    hide EntriesOf, Registered;
    var es := EntriesBeforeLogger(c, dig);
    forall i | 0 <= i < |es|
      ensures es[i].ProvidedConstructor?
    {
      EntryAt(Registered(c, dig), i);
    }
  }

  /** The calls for a logger that is built. */
  function BuildCalls(c: Config): seq<Call> {
    if c.logConstructor.Some? then [BuildLogger] else []
  }

  /** No invoke fails after those before it, in a container with the given entries. */
  ghost predicate NoInvokeFails(c: Config, dig: Dig, entries: seq<Entry>) {
    forall j | 0 <= j < |c.invokes| :: !InvokeFails(dig, entries, BuildCalls(c), c.invokes, j)
  }

  lemma InvokeErrMeans(c: Config, dig: Dig)
    requires LoggerErr(c, dig).None?
    ensures InvokeErr(c, dig).None? <==> NoInvokeFails(c, dig, EntriesAfterNew(c, dig))
  {
    var m := BadInvoke(c, dig);
    assert LoggerCalls(c, dig) == BuildCalls(c);
    if m < |c.invokes| {
      assert InvokeFails(dig, EntriesAfterNew(c, dig), BuildCalls(c), c.invokes, m);
    }
  }

  /**
   * An invoke runs only if no error was given, every constructor is registered, and the logger, if any, was
   * built first.
   * Err is nil exactly if no error was given as an option, every constructor was registered, the logger, if
   * any, was built, and no invoke fails after those before it.
   */
  ghost predicate PhasesInOrder(c: Config, dig: Dig, err: Option<Error>, entries: seq<Entry>, calls: seq<Call>) {
    && (forall k | 0 <= k < |calls| && calls[k].RunFn? ::
          && c.err.None? && AllRegistered(c, entries)
          && (c.logConstructor.Some? ==>
                calls[0] == BuildLogger && LoggerBuilt(dig, c.logConstructor.value, entries)))
    && (err.None? <==>
          && c.err.None? && AllRegistered(c, entries)
          && (c.logConstructor.Some? ==> LoggerBuilt(dig, c.logConstructor.value, entries))
          && NoInvokeFails(c, dig, entries))
  }

  lemma NewPhases(c: Config, dig: Dig)
    ensures PhasesInOrder(c, dig, NewErr(c, dig), EntriesAfterNew(c, dig), NewCalls(c, dig))
  {
    hide AllRegistered, LoggerBuilt, NoInvokeFails, CallsOf, ProvideOutcome, EntriesOf, AllProvides, InvokeErr;
    AllRegisteredMeans(c, dig);
    RegisteredIsMaximal(c, dig);
    if c.logConstructor.Some? {
      LoggerBuiltMeans(c, dig);
    }
    if LoggerErr(c, dig).None? {
      InvokeErrMeans(c, dig);
    }
  }

  /**
   * Error hooks run once each, in order, with the invoke's error, exactly if the log ends with the failure
   * of an invoke; then that is the error the application ends with. They get a graph with it if the container
   * can draw one.
   */
  ghost predicate HooksFollowLog(hooks: seq<nat>, dig: Dig, err: Option<Error>, es: seq<Event>, hs: seq<Handled>) {
    if es != [] && es[|es| - 1].InvokeError?
    then
      var cause := es[|es| - 1].cause;
      && err == Some(cause)
      && |hs| == |hooks|
      && forall i | 0 <= i < |hs| :: hs[i] == Handled(hooks[i], cause, dig.canVisualize(cause))
    else hs == []
  }

  lemma ErrorHooksRunOnInvokeFailure(c: Config, dig: Dig)
    ensures HooksFollowLog(c.errorHooks, dig, NewErr(c, dig), NewEvents(c, dig), NewHandled(c, dig))
  {
    hide ProvideErr, Registered, LoggerErr, InvokeErr, Attempted;
    var es := NewEvents(c, dig);
    assert InvokePhaseEvents(c, dig) == [] ==> es == EventsUpToProvides(c, dig) + LoggerEvents(c, dig);
  }

  // ----- The log agrees with what happened -----

  /** The errors of the error events of New, in order. */
  function LoggedErrors(es: seq<Event>): seq<Error> {
    if es == [] then []
    else
      LoggedErrors(es[..|es| - 1]) +
      match es[|es| - 1]
      case ProvideError(cause) => ErrorsOf(Some(cause))
      case CustomLoggerError(cause) => ErrorsOf(Some(cause))
      case InvokeError(_, cause) => ErrorsOf(Some(cause))
      case _ => []
  }

  /** The constructors that the log says were registered, and the functions it says were invoked. */
  function LoggedProvides(es: seq<Event>): seq<nat> {
    if es == [] then []
    else
      LoggedProvides(es[..|es| - 1]) +
      match es[|es| - 1]
      case Provided(target) => [target]
      case Supplied(target) => [target]
      case _ => []
  }

  function LoggedInvokes(es: seq<Event>): seq<nat> {
    if es == [] then []
    else
      LoggedInvokes(es[..|es| - 1]) +
      match es[|es| - 1]
      case Invoking(fn) => [fn]
      case _ => []
  }

  /** The constructors in the container, of the user and of fx, without that of the logger. */
  function ConstructorIds(es: seq<Entry>): seq<nat> {
    if es == [] then []
    else
      ConstructorIds(es[..|es| - 1]) +
      match es[|es| - 1]
      case ProvidedConstructor(t) => [TargetId(t)]
      case LoggerConstructor(_) => []
  }

  function InvokeIds(fns: seq<Invoke>): seq<nat> {
    if fns == [] then [] else InvokeIds(fns[..|fns| - 1]) + [InvokeId(fns[|fns| - 1])]
  }

  lemma {:induction false} LoggedErrorsConcat(a: seq<Event>, b: seq<Event>)
    ensures LoggedErrors(a + b) == LoggedErrors(a) + LoggedErrors(b)
  {
    hide ErrorsOf;
    if b == [] {
      assert a + b == a;
    } else {
      assert (a + b)[..|a + b| - 1] == a + b[..|b| - 1];
      LoggedErrorsConcat(a, b[..|b| - 1]);
    }
  }

  lemma {:induction false} LoggedProvidesConcat(a: seq<Event>, b: seq<Event>)
    ensures LoggedProvides(a + b) == LoggedProvides(a) + LoggedProvides(b)
  {
    if b == [] {
      assert a + b == a;
    } else {
      assert (a + b)[..|a + b| - 1] == a + b[..|b| - 1];
      LoggedProvidesConcat(a, b[..|b| - 1]);
    }
  }

  lemma {:induction false} LoggedInvokesConcat(a: seq<Event>, b: seq<Event>)
    ensures LoggedInvokes(a + b) == LoggedInvokes(a) + LoggedInvokes(b)
  {
    if b == [] {
      assert a + b == a;
    } else {
      assert (a + b)[..|a + b| - 1] == a + b[..|b| - 1];
      LoggedInvokesConcat(a, b[..|b| - 1]);
    }
  }

  lemma LoggedConcat(a: seq<Event>, b: seq<Event>)
    ensures LoggedErrors(a + b) == LoggedErrors(a) + LoggedErrors(b)
    ensures LoggedProvides(a + b) == LoggedProvides(a) + LoggedProvides(b)
    ensures LoggedInvokes(a + b) == LoggedInvokes(a) + LoggedInvokes(b)
  {
    hide LoggedErrors, LoggedProvides, LoggedInvokes;
    LoggedErrorsConcat(a, b);
    LoggedProvidesConcat(a, b);
    LoggedInvokesConcat(a, b);
  }

  lemma {:induction false} ProvideEventsLogged(ps: seq<Provide>)
    ensures LoggedErrors(ProvideEvents(ps)) == [] && LoggedInvokes(ProvideEvents(ps)) == []
    ensures LoggedProvides(ProvideEvents(ps)) == ConstructorIds(EntriesOf(ps))
  {
    if ps != [] {
      ProvideEventsLogged(ps[..|ps| - 1]);
    }
  }

  lemma {:induction false} InvokeEventsLogged(fns: seq<Invoke>)
    ensures LoggedErrors(InvokeEvents(fns)) == [] && LoggedProvides(InvokeEvents(fns)) == []
    ensures LoggedInvokes(InvokeEvents(fns)) == InvokeIds(fns)
  {
    if fns != [] {
      InvokeEventsLogged(fns[..|fns| - 1]);
    }
  }

  lemma OneEventLogged(e: Event)
    ensures LoggedErrors([e]) ==
      match e
      case ProvideError(cause) => ErrorsOf(Some(cause))
      case CustomLoggerError(cause) => ErrorsOf(Some(cause))
      case InvokeError(_, cause) => ErrorsOf(Some(cause))
      case _ => []
    ensures LoggedProvides([e]) == if e.Provided? || e.Supplied? then [e.target] else []
    ensures LoggedInvokes([e]) == if e.Invoking? then [e.fn] else []
  {
    assert [e][..0] == [];
  }

  lemma NoEventLogged()
    ensures LoggedErrors([]) == [] && LoggedProvides([]) == [] && LoggedInvokes([]) == []
  {
  }

  lemma ProvidePhaseLogged(c: Config, dig: Dig)
    ensures
      var es := EventsUpToProvides(c, dig);
      && LoggedErrors(es) == ErrorsOf(ProvideErr(c, dig))
      && LoggedProvides(es) == ConstructorIds(EntriesBeforeLogger(c, dig))
      && LoggedInvokes(es) == []
  {
    hide LoggedErrors, LoggedProvides, LoggedInvokes, ProvideEvents, ConstructorIds, EntriesOf, ProvideErr, Registered;
    var err := ProvideErr(c, dig);
    ProvideEventsLogged(Registered(c, dig));
    NoEventLogged();
    if err.Some? {
      OneEventLogged(ProvideError(err.value));
      LoggedConcat(ProvideEvents(Registered(c, dig)), [ProvideError(err.value)]);
    } else {
      assert EventsUpToProvides(c, dig) == ProvideEvents(Registered(c, dig));
    }
  }

  lemma LoggerPhaseLogged(c: Config, dig: Dig)
    ensures
      var es := LoggerEvents(c, dig);
      LoggedErrors(es) == ErrorsOf(LoggerErr(c, dig)) && LoggedProvides(es) == [] && LoggedInvokes(es) == []
  {
    hide LoggedErrors, LoggedProvides, LoggedInvokes;
    NoEventLogged();
    if c.logConstructor.Some? {
      OneEventLogged(CustomLogger(c.logConstructor.value));
      if LoggerErr(c, dig).Some? {
        OneEventLogged(CustomLoggerError(LoggerErr(c, dig).value));
      }
    }
  }

  lemma InvokePhaseLogged(c: Config, dig: Dig)
    requires ReachesInvokes(c, dig)
    ensures
      var es := InvokePhaseEvents(c, dig);
      && LoggedErrors(es) == ErrorsOf(InvokeErr(c, dig))
      && LoggedProvides(es) == []
      && LoggedInvokes(es) == InvokeIds(Attempted(c, dig))
  {
    hide LoggedErrors, LoggedProvides, LoggedInvokes, InvokeEvents, InvokeIds, Attempted;
    InvokeEventsLogged(Attempted(c, dig));
    NoEventLogged();
    if InvokeErr(c, dig).Some? {
      var m := BadInvoke(c, dig);
      var e := InvokeError(InvokeId(c.invokes[m]), InvokeErr(c, dig).value);
      OneEventLogged(e);
      LoggedConcat(InvokeEvents(Attempted(c, dig)), [e]);
    } else {
      assert InvokePhaseEvents(c, dig) == InvokeEvents(Attempted(c, dig));
    }
  }

  /**
   * The log of New agrees with its outcome: the errors of its error events, in order, are exactly the
   * parts of the error the application ends with; the constructors it announces are exactly those in the
   * container other than the logger's; and the functions it announces are exactly those attempted.
   */
  lemma NewLogAgrees(c: Config, dig: Dig)
    ensures
      var es := NewEvents(c, dig);
      && LoggedErrors(es) == ErrorsOf(NewErr(c, dig))
      && LoggedProvides(es) == ConstructorIds(EntriesAfterNew(c, dig))
      && LoggedInvokes(es) == if ReachesInvokes(c, dig) then InvokeIds(Attempted(c, dig)) else []
  {
    hide LoggedErrors, LoggedProvides, LoggedInvokes, EventsUpToProvides, LoggerEvents, InvokePhaseEvents, ProvideErr,
      LoggerErr, InvokeErr, EntriesBeforeLogger, InvokeIds, Attempted, LoggerAccepted;
    var a, b, d := EventsUpToProvides(c, dig), LoggerEvents(c, dig), InvokePhaseEvents(c, dig);
    LoggedConcat(a + b, d);
    LoggedConcat(a, b);
    ProvidePhaseLogged(c, dig);
    LoggerPhaseLogged(c, dig);
    AppendIsCombine(ProvideErr(c, dig), LoggerErr(c, dig));
    ConstructorIdsAfterNew(c, dig);
    if ReachesInvokes(c, dig) {
      InvokePhaseLogged(c, dig);
    } else {
      NoEventLogged();
      NoInvokePhase(c, dig);
    }
  }

  lemma NoInvokePhase(c: Config, dig: Dig)
    requires !ReachesInvokes(c, dig)
    ensures InvokePhaseEvents(c, dig) == []
  {
  }

  lemma ConstructorIdsAfterNew(c: Config, dig: Dig)
    ensures ConstructorIds(EntriesAfterNew(c, dig)) == ConstructorIds(EntriesBeforeLogger(c, dig))
  {
    var before := EntriesBeforeLogger(c, dig);
    if LoggerAccepted(c, dig) {
      assert EntriesAfterNew(c, dig)[..|before|] == before;
    } else {
      assert EntriesAfterNew(c, dig) == before;
    }
  }

  // ----- The log, event by event -----

  /** What was supplied or provided, in order, and the error that ended it. */
  predicate ReadsProvides(es: seq<Event>, ps: seq<Provide>, err: Option<Error>) {
    && |es| == |ps| + (if err.Some? then 1 else 0)
    && (forall i | 0 <= i < |ps| ::
          es[i] == if ps[i].isSupply then Supplied(TargetId(ps[i].target)) else Provided(TargetId(ps[i].target)))
    && (err.Some? ==> es[|ps|] == ProvideError(err.value))
  }

  /** The functions that were attempted, in order, and the error of the last one. */
  predicate ReadsInvokes(es: seq<Event>, fns: seq<Invoke>, err: Option<Error>) {
    && |es| == |fns| + (if err.Some? then 1 else 0)
    && (forall j | 0 <= j < |fns| :: es[j] == Invoking(if fns[j].InvokeFn? then fns[j].fn else fns[j].id))
    && (err.Some? ==> fns != [] && es[|fns|] == InvokeError(es[|fns| - 1].fn, err.value))
  }

  /**
   * The log of New, event by event: what was registered; the logger that was built, or why it was not; and, if
   * nothing failed so far, the invokes up to and including the first that fails.
   */
  lemma NewLogReads(c: Config, dig: Dig)
    ensures
      var n, m := |EntriesBeforeLogger(c, dig)|, BadInvoke(c, dig);
      var attempted := c.invokes[..if m < |c.invokes| then m + 1 else m];
      var ps := c.constructors + [Provide(LifecycleConstructor, false), Provide(ShutdownerConstructor, false),
                                  Provide(DotGraphConstructor, false)];
      var registering, logger := EventsUpToProvides(c, dig), LoggerEvents(c, dig);
      var invoking := InvokePhaseEvents(c, dig);
      && NewEvents(c, dig) == registering + logger + invoking
      && n <= |ps| && ReadsProvides(registering, ps[..n], ProvideErr(c, dig))
      && (c.logConstructor.None? ==> logger == [])
      && (c.logConstructor.Some? ==>
            logger == [if LoggerErr(c, dig).Some? then CustomLoggerError(LoggerErr(c, dig).value)
                       else CustomLogger(c.logConstructor.value)])
      && if ProvideErr(c, dig).Some? || LoggerErr(c, dig).Some? then invoking == []
         else ReadsInvokes(invoking, attempted, InvokeErr(c, dig))
  {
    hide ProvideErr, LoggerErr, InvokeErr, EntriesOf, ProvideEvents, InvokeEvents, NumRegistered, BadInvoke;
    ProvideEventsAre(Registered(c, dig));
    InvokeEventsAre(Attempted(c, dig));
    InvokeErrIsOfLast(c, dig);
    assert c.invokes[..|c.invokes|] == c.invokes;
  }

  lemma {:induction false} ProvideEventsAre(ps: seq<Provide>)
    ensures |ProvideEvents(ps)| == |ps|
    ensures forall i | 0 <= i < |ps| ::
      ProvideEvents(ps)[i] ==
      if ps[i].isSupply then Supplied(TargetId(ps[i].target)) else Provided(TargetId(ps[i].target))
  {
    if ps != [] {
      ProvideEventsAre(ps[..|ps| - 1]);
    }
  }

  lemma {:induction false} InvokeEventsAre(fns: seq<Invoke>)
    ensures |InvokeEvents(fns)| == |fns|
    ensures forall j | 0 <= j < |fns| ::
      InvokeEvents(fns)[j] == Invoking(if fns[j].InvokeFn? then fns[j].fn else fns[j].id)
  {
    if fns != [] {
      InvokeEventsAre(fns[..|fns| - 1]);
    }
  }

  lemma InvokeErrIsOfLast(c: Config, dig: Dig)
    ensures InvokeErr(c, dig).Some? ==> BadInvoke(c, dig) < |c.invokes|
  {
  }
}
