/** The App class: New and its phases, and App.start. */
module FxApp {
  import opened Errors
  import opened Events
  import opened Logging
  import opened Options
  import opened NewSpec
  import opened NewFacts
  import opened LifecycleSpec
  import opened Lifecycles
  import AppSpec

  /** The dependency injection container: what was registered and invoked. */
  class Container {
    const dig: Dig
    var entries: seq<Entry>
    var calls: seq<Call>

    constructor (dig: Dig)
      ensures this.dig == dig && entries == [] && calls == []
    {
      this.dig := dig;
      entries, calls := [], [];
    }

    method Provide(e: Entry) returns (err: Option<Error>)
      modifies this`entries
      ensures err == dig.provide(old(entries), e)
      ensures entries == old(entries) + if err.None? then [e] else []
    {
      err := dig.provide(entries, e);
      if err.None? {
        entries := entries + [e];
      }
    }

    method Invoke(call: Call) returns (out: Invocation)
      modifies this`calls
      ensures out == dig.invoke(entries, old(calls), call)
      ensures calls == old(calls) + [call]
    {
      out := dig.invoke(entries, calls, call);
      calls := calls + [call];
    }
  }

  class App {
    const dig: Dig
    const logger: AppLogger
    const lifecycle: Lifecycle
    var err: Option<Error>
    var container: Container?
    var constructors: seq<Options.Provide>
    var invokes: seq<Options.Invoke>
    var errorHooks: seq<nat>
    var startTimeout: int
    var stopTimeout: int
    var logConstructor: Option<nat>
    var validate: bool
    var handled: seq<Handled>        // the calls of error handlers so far

    ghost predicate Valid()
      reads this, logger, logger.Repr
    {
      && logger.Valid()
      && this !in logger.Repr && lifecycle !in logger.Repr
      && lifecycle.logger == logger
      && (container != null ==> container !in logger.Repr && container.dig == dig)
    }

    /** What the options have set. */
    ghost function Config(): Config
      reads this, logger
      requires logger.log.Direct?
    {
      Options.Config(constructors, invokes, errorHooks, err, startTimeout, stopTimeout, logger.log.sink.name,
                     logConstructor, validate)
    }

    /** Options are still being applied. */
    ghost predicate Configuring()
      reads this, logger, logger.Repr
    {
      && Valid()
      && logger.emitted == [] && logger.log.Direct? && logger.Repr == {logger, logger.log.sink}
      && container == null && handled == []
    }

    constructor (dig: Dig, env: Callbacks)
      ensures Configuring() && Config() == DefaultConfig()
      ensures this.dig == dig && lifecycle.env == env
      ensures lifecycle.State() == NewState()
      ensures fresh(logger.Repr) && fresh(lifecycle)
    {
      this.dig := dig;
      var sink := new Sink(Stderr);
      var log := new AppLogger(sink);
      this.logger := log;
      this.lifecycle := new Lifecycle(log, env);
      err, container := None, null;
      constructors, invokes, errorHooks := [], [], [];
      startTimeout, stopTimeout := DEFAULT_TIMEOUT, DEFAULT_TIMEOUT;
      logConstructor, validate, handled := None, false, [];
    }

    // ----- Options -----

    method AddConstructors(targets: seq<Target>, isSupply: bool)
      modifies this`constructors
      ensures constructors == old(constructors) + Provides(targets, isSupply)
    {
      var i := 0;
      assert Provides(targets, isSupply)[..0] == [];
      while i < |targets|
        invariant 0 <= i <= |targets|
        invariant constructors == old(constructors) + Provides(targets, isSupply)[..i]
      {
        constructors := constructors + [Options.Provide(targets[i], isSupply)];
        i := i + 1;
      }
    }

    method AddInvokes(fns: seq<Options.Invoke>)
      modifies this`invokes
      ensures invokes == old(invokes) + fns
    {
      var i := 0;
      while i < |fns|
        invariant 0 <= i <= |fns|
        invariant invokes == old(invokes) + fns[..i]
      {
        invokes := invokes + [fns[i]];
        i := i + 1;
      }
    }

    /** Applies an option, and a group by applying its options in order. */
    method Apply(o: Opt)
      requires Configuring()
      modifies this, logger
      ensures Configuring() && Config() == ApplyLeaves(old(Config()), Leaves(o))
      ensures logger.log == old(logger.log) || fresh(logger.log.sink)
      decreases o
    {
      if o.Group? {
        ApplyAll(o.opts);
      } else {
        ApplyOne(o);
        assert [o][..0] == [];
      }
    }

    method ApplyAll(os: seq<Opt>)
      requires Configuring()
      modifies this, logger
      ensures Configuring() && Config() == ApplyLeaves(old(Config()), AllLeaves(os))
      ensures logger.log == old(logger.log) || fresh(logger.log.sink)
      decreases os
    {
      hide ApplyLeaf, ApplyLeaves, AllLeaves, Leaves;
      ApplyNone(Config(), os);
      var i := 0;
      while i < |os|
        invariant 0 <= i <= |os|
        invariant Configuring() && Config() == ApplyLeaves(old(Config()), AllLeaves(os[..i]))
        invariant logger.log == old(logger.log) || fresh(logger.log.sink)
      {
        Apply(os[i]);
        ApplyNext(old(Config()), os, i);
        i := i + 1;
      }
      assert os[..|os|] == os;
    }

    method ApplyOne(o: Opt)
      requires Configuring() && !o.Group?
      modifies this, logger
      ensures Configuring() && Config() == ApplyLeaf(old(Config()), o)
      ensures logger.log == old(logger.log) || fresh(logger.log.sink)
    {
      match o
      case ProvideOpt(ts) => AddConstructors(ts, false);
      case SupplyOpt(ts) => AddConstructors(ts, true);
      case InvokeOpt(fns) => AddInvokes(fns);
      case ErrorOpt(errs) => err := Append(err, Combine(errs));
      case StartTimeout(t) => startTimeout := t;
      case StopTimeout(t) => stopTimeout := t;
      case WithLogger(ctor) => logConstructor := Some(ctor);
      case Logger(p) =>
        var sink := new Sink(Printer(p));
        logger.Use(sink);
      case ErrorHook(hs) => errorHooks := errorHooks + hs;
      case Validate(v) => validate := v;
    }

    // ----- Provides -----

    /** Registers one constructor, unless something failed before. */
    method Provide(p: Options.Provide)
      requires Valid() && container != null
      modifies this`err, container, logger.Repr
      ensures Valid() && logger.Repr == old(logger.Repr) && logger.log == old(logger.log)
      ensures logger.log.Buffered? ==> logger.log.buffer.logger == old(logger.log.buffer.logger)
      ensures container.calls == old(container.calls)
      ensures err == if old(err).Some? then old(err) else ProvideOutcome(dig, old(container.entries), p)
      ensures container.entries == old(container.entries) + if err.None? then [ProvidedConstructor(p.target)] else []
      ensures logger.emitted == old(logger.emitted) + if err.None? then ProvideEvents([p]) else []
      ensures
        var t, refused := p.target, dig.provide(old(container.entries), ProvidedConstructor(p.target));
        old(err).None? ==>
          err ==
          if t.OptionTarget? then Some(Reported(OptionProvided, TargetId(t), None))
          else if t.Annotated? && t.name != "" && t.group != "" then Some(Reported(NameAndGroup, TargetId(t), None))
          else if t.Constructor? && t.returnsAnnotated then Some(Reported(ReturnsAnnotated, TargetId(t), None))
          else if refused.Some? then Some(Reported(ProvideFailed, TargetId(t), refused))
          else None
      ensures err.None? ==>
        logger.emitted ==
        old(logger.emitted) + [if p.isSupply then Supplied(TargetId(p.target)) else Events.Provided(TargetId(p.target))]
    {
      if err.Some? {
        return;
      }
      var t := p.target;
      match t {
        case OptionTarget(_) =>
          err := Some(Reported(OptionProvided, TargetId(t), None));
          return;
        case Annotated(name, group, _) =>
          if |group| > 0 && |name| > 0 {
            err := Some(Reported(NameAndGroup, TargetId(t), None));
            return;
          }
        case Constructor(_, returnsAnnotated) =>
          if returnsAnnotated {
            err := Some(Reported(ReturnsAnnotated, TargetId(t), None));
            return;
          }
        case _ =>
      }
      var e := container.Provide(ProvidedConstructor(t));
      if e.Some? {
        err := Some(Reported(ProvideFailed, TargetId(t), e));
      } else {
        assert [p][..0] == [];
        logger.LogEvent(if p.isSupply then Supplied(TargetId(t)) else Events.Provided(TargetId(t)));
      }
    }

    /** After the first i of ps, when no error was set before: the first n are registered, and n failed if n < i. */
    ghost predicate RegisteredUpTo(ps: seq<Options.Provide>, i: nat, n: nat)
      reads this, container, logger
    {
      && n <= i <= |ps| && container != null
      && (forall j | 0 <= j < n :: !Refused(dig, ps, j))
      && container.entries == EntriesOf(ps[..n])
      && logger.emitted == ProvideEvents(ps[..n])
      && if n == i then err.None?
         else Refused(dig, ps, n) && err == ProvideOutcome(dig, EntriesOf(ps[..n]), ps[n])
    }

    method ProvideAll(ps: seq<Options.Provide>) returns (ghost n: nat)
      requires Valid() && container != null && container.entries == [] && logger.emitted == []
      modifies this`err, container, logger.Repr
      ensures Valid() && logger.Repr == old(logger.Repr) && logger.log == old(logger.log)
      ensures logger.log.Buffered? ==> logger.log.buffer.logger == old(logger.log.buffer.logger)
      ensures container.calls == old(container.calls)
      ensures old(err).Some? ==> err == old(err) && container.entries == [] && logger.emitted == []
      ensures old(err).None? ==> RegisteredUpTo(ps, |ps|, n)
    {
      hide ProvideOutcome, EntriesOf, ProvideEvents;
      var i := 0;
      n := 0;
      NoProvides(ps);
      while i < |ps|
        invariant 0 <= i <= |ps|
        invariant Valid() && logger.Repr == old(logger.Repr) && logger.log == old(logger.log)
        invariant logger.log.Buffered? ==> logger.log.buffer.logger == old(logger.log.buffer.logger)
        invariant container.calls == old(container.calls)
        invariant old(err).Some? ==> err == old(err) && container.entries == [] && logger.emitted == []
        invariant old(err).None? ==> RegisteredUpTo(ps, i, n)
      {
        Provide(ps[i]);
        ProvidesNext(ps, i);
        i := i + 1;
        if err.None? {
          n := i;
        }
      }
    }

    /** The provides of New: those of the options, then Lifecycle, Shutdowner and DotGraph. */
    method RegisterProvides(ghost c: Options.Config)
      requires Valid() && container != null && container.entries == [] && logger.emitted == []
      requires constructors == c.constructors && err == c.err
      modifies this`err, container, logger.Repr
      ensures Valid() && logger.Repr == old(logger.Repr) && logger.log == old(logger.log)
      ensures logger.log.Buffered? ==> logger.log.buffer.logger == old(logger.log.buffer.logger)
      ensures container.calls == old(container.calls)
      ensures err == ProvideErr(c, dig) && container.entries == EntriesBeforeLogger(c, dig)
      ensures logger.emitted == EventsUpToProvides(c, dig)
    {
      var ps := constructors + [Options.Provide(LifecycleConstructor, false),
                                Options.Provide(ShutdownerConstructor, false),
                                Options.Provide(DotGraphConstructor, false)];
      assert ps == AllProvides(c);
      ghost var n := ProvideAll(ps);
      assert ps[..0] == [];
      assert c.err.None? ==> n == FirstRefused(dig, ps);
      if err.Some? {
        logger.LogEvent(ProvideError(err.value));
      }
    }

    // ----- The custom logger -----

    /** The hooks that constructors append while the container runs them. */
    method AppendHooks(hs: seq<Hook>)
      modifies lifecycle`hooks
      ensures lifecycle.hooks == old(lifecycle.hooks) + hs
    {
      var i := 0;
      while i < |hs|
        invariant 0 <= i <= |hs|
        invariant lifecycle.hooks == old(lifecycle.hooks) + hs[..i]
      {
        lifecycle.Append(hs[i], hs[i].caller);
        i := i + 1;
      }
    }

    /** Asks the container to invoke something; a validating container runs nothing. */
    method Invoke(call: Call) returns (e: Option<Error>)
      requires container != null && container.dig == dig
      modifies container`calls, lifecycle`hooks
      ensures e == dig.invoke(container.entries, old(container.calls), call).err
      ensures container.calls == old(container.calls) + [call]
      ensures lifecycle.hooks == old(lifecycle.hooks) +
        if validate then [] else dig.invoke(container.entries, old(container.calls), call).appended
    {
      var out := container.Invoke(call);
      if !validate {
        AppendHooks(out.appended);
      }
      e := out.err;
    }

    /** Builds the logger of fx.WithLogger and hands the buffer over to it. */
    method ConstructCustomLogger(buffer: LogBuffer, ctor: nat) returns (e: Option<Error>)
      requires Valid() && container != null && container.calls == []
      requires logger.log == Buffered(buffer) && buffer.logger == null && logger.Repr == {logger, buffer}
      modifies container, lifecycle`hooks, logger.Repr
      ensures Valid() && logger.emitted == old(logger.emitted)
      ensures
        var refused := dig.provide(old(container.entries), LoggerConstructor(ctor));
        if refused.Some? then
          && e == Some(Reported(LoggerProvideFailed, ctor, refused))
          && container.entries == old(container.entries) && container.calls == []
          && lifecycle.hooks == old(lifecycle.hooks)
        else
          && container.entries == old(container.entries) + [LoggerConstructor(ctor)]
          && container.calls == [BuildLogger]
          && e == dig.invoke(container.entries, [], BuildLogger).err
          && lifecycle.hooks == old(lifecycle.hooks) +
               if validate then [] else dig.invoke(container.entries, [], BuildLogger).appended
      ensures
        if e.None? && !validate then
          && logger.log.Direct? && logger.log.sink.name == Custom(ctor) && fresh(logger.log.sink)
          && logger.Repr == {logger, logger.log.sink}
        else
          logger.log == Buffered(buffer) && buffer.logger == null && logger.Repr == {logger, buffer}
    {
      var refused := container.Provide(LoggerConstructor(ctor));
      if refused.Some? {
        return Some(Reported(LoggerProvideFailed, ctor, refused));
      }
      e := Invoke(BuildLogger);
      if e.None? && !validate {
        var custom := new Sink(Custom(ctor));
        logger.HandOver(buffer, custom);
      }
    }

    // ----- Invokes -----

    /** Asks the container to run one invoke. An fx.Option passed as one is refused without asking. */
    method Attempt(f: Options.Invoke, ghost c: Options.Config) returns (e: Option<Error>)
      requires container != null && container.dig == dig && validate == c.validate
      requires lifecycle.hooks == HooksOf(c, dig, container.entries, container.calls)
      modifies container`calls, lifecycle`hooks
      ensures e == InvokeOutcome(dig, container.entries, old(container.calls), f)
      ensures container.calls == old(container.calls) + CallOf(f)
      ensures lifecycle.hooks == HooksOf(c, dig, container.entries, container.calls)
      ensures
        match f
        case InvokeOption(id) =>
          container.calls == old(container.calls) && e == Some(Reported(OptionInvoked, id, None))
        case InvokeFn(fn) =>
          && container.calls == old(container.calls) + [RunFn(fn)]
          && e == dig.invoke(container.entries, old(container.calls), RunFn(fn)).err
    {
      match f
      case InvokeOption(id) => e := Some(Reported(OptionInvoked, id, None));
      case InvokeFn(fn) =>
        e := Invoke(RunFn(fn));
        assert container.calls[..|container.calls| - 1] == old(container.calls);
    }

    /** Runs one invoke, with its events. */
    method InvokeOne(f: Options.Invoke, ghost c: Options.Config) returns (e: Option<Error>)
      requires Valid() && container != null && validate == c.validate
      requires lifecycle.hooks == HooksOf(c, dig, container.entries, container.calls)
      modifies container`calls, lifecycle`hooks, logger.Repr
      ensures Valid() && logger.Repr == old(logger.Repr) && logger.log == old(logger.log)
      ensures logger.log.Buffered? ==> logger.log.buffer.logger == old(logger.log.buffer.logger)
      ensures e == InvokeOutcome(dig, container.entries, old(container.calls), f)
      ensures container.calls == old(container.calls) + CallOf(f)
      ensures lifecycle.hooks == HooksOf(c, dig, container.entries, container.calls)
      ensures logger.emitted == old(logger.emitted) + [Invoking(InvokeId(f))] +
        if e.None? then [] else [InvokeError(InvokeId(f), e.value)]
    {
      hide HooksOf, InvokeOutcome, InvokeId, CallOf;
      logger.LogEvent(Invoking(InvokeId(f)));
      e := Attempt(f, c);
      if e.Some? {
        logger.LogEvent(InvokeError(InvokeId(f), e.value));
      }
    }

    /** Runs the invokes until the first error, which is that of invoke m. */
    method ExecuteInvokes(ghost c: Options.Config) returns (e: Option<Error>, ghost m: nat)
      requires Valid() && container != null && validate == c.validate
      requires lifecycle.hooks == HooksOf(c, dig, container.entries, container.calls)
      modifies container`calls, lifecycle`hooks, logger.Repr
      ensures Valid() && logger.Repr == old(logger.Repr) && logger.log == old(logger.log)
      ensures logger.log.Buffered? ==> logger.log.buffer.logger == old(logger.log.buffer.logger)
      ensures lifecycle.hooks == HooksOf(c, dig, container.entries, container.calls)
      ensures m == FirstBadInvoke(dig, container.entries, old(container.calls), invokes)
      ensures
        if m < |invokes| then
          && e == InvokeOutcome(dig, container.entries, old(container.calls) + CallsOf(invokes[..m]), invokes[m])
          && e.Some?
          && container.calls == old(container.calls) + CallsOf(invokes[..m + 1])
          && logger.emitted == old(logger.emitted) + InvokeEvents(invokes[..m + 1]) +
               [InvokeError(InvokeId(invokes[m]), e.value)]
        else
          && e.None?
          && container.calls == old(container.calls) + CallsOf(invokes)
          && logger.emitted == old(logger.emitted) + InvokeEvents(invokes)
    {
      hide HooksOf, InvokeOutcome, InvokeId, CallOf, CallsOf, InvokeEvents;
      var i := 0;
      NoInvokes(invokes);
      while i < |invokes|
        invariant 0 <= i <= |invokes|
        invariant Valid() && logger.Repr == old(logger.Repr) && logger.log == old(logger.log)
        invariant logger.log.Buffered? ==> logger.log.buffer.logger == old(logger.log.buffer.logger)
        invariant forall j | 0 <= j < i :: !InvokeFails(dig, container.entries, old(container.calls), invokes, j)
        invariant container.calls == old(container.calls) + CallsOf(invokes[..i])
        invariant lifecycle.hooks == HooksOf(c, dig, container.entries, container.calls)
        invariant logger.emitted == old(logger.emitted) + InvokeEvents(invokes[..i])
      {
        ghost var calls, emitted := container.calls, logger.emitted;
        e := InvokeOne(invokes[i], c);
        CallsOfNext(invokes, i);
        assert container.calls == old(container.calls) + CallsOf(invokes[..i + 1]);
        assert emitted + [Invoking(InvokeId(invokes[i]))] == old(logger.emitted) + InvokeEvents(invokes[..i + 1]);
        if e.Some? {
          assert InvokeFails(dig, container.entries, old(container.calls), invokes, i);
          m := i;
          return;
        }
        i := i + 1;
      }
      assert invokes[..i] == invokes;
      m := i;
      e := None;
    }

    method HandleErrors(cause: Error)
      modifies this`handled
      ensures handled == old(handled) + HandledBy(errorHooks, cause, dig.canVisualize(cause))
    {
      var i := 0;
      assert errorHooks[..0] == [];
      while i < |errorHooks|
        invariant 0 <= i <= |errorHooks|
        invariant handled == old(handled) + HandledBy(errorHooks[..i], cause, dig.canVisualize(cause))
      {
        assert errorHooks[..i + 1][..i] == errorHooks[..i];
        handled := handled + [Handled(errorHooks[i], cause, dig.canVisualize(cause))];
        i := i + 1;
      }
      assert errorHooks[..i] == errorHooks;
    }

    // ----- New -----

    /**
     * Where the events went: to the fallback logger if there is no other or building that failed, to the custom
     * logger, or nowhere yet if the logger was built by a container that only validates.
     */
    ghost predicate RoutedBy(c: Options.Config, fallback: Sink)
      reads this, logger, logger.Repr, fallback
      requires Valid()
    {
      if c.logConstructor.None? || LoggerErr(c, dig).Some? then
        logger.log == Direct(fallback) && fallback.events == logger.emitted
      else if !c.validate then
        && logger.log.Direct? && logger.log.sink.name == Custom(c.logConstructor.value)
        && logger.log.sink.events == logger.emitted && fallback.events == []
      else
        && logger.log.Buffered? && logger.log.buffer.logger == null
        && logger.log.buffer.events == logger.emitted && fallback.events == []
    }

    /** The logger phase, when fx.WithLogger was used: build the logger, or fall back. */
    method SetUpLogger(ghost c: Options.Config, ctor: nat, buffer: LogBuffer, fallback: Sink) returns (e: Option<Error>)
      requires Valid() && container != null && container.calls == []
      requires logger.log == Buffered(buffer) && buffer.logger == null && logger.Repr == {logger, buffer}
      requires fallback.events == [] && lifecycle.hooks == []
      requires c.logConstructor == Some(ctor) && validate == c.validate
      requires container.entries == EntriesBeforeLogger(c, dig) && err == ProvideErr(c, dig)
      modifies this`err, container, lifecycle`hooks, logger.Repr, fallback
      ensures Valid() && fresh(logger.Repr - old(logger.Repr) - {fallback})
      ensures logger.emitted == old(logger.emitted) + LoggerEvents(c, dig)
      ensures RoutedBy(c, fallback)
      ensures
        if e.Some? then
          logger.log == Direct(fallback) && fallback.events == logger.emitted
        else if !validate then
          && logger.log.Direct? && logger.log.sink.name == Custom(ctor)
          && logger.log.sink.events == logger.emitted && fallback.events == []
        else
          && logger.log == Buffered(buffer) && buffer.logger == null
          && buffer.events == logger.emitted && fallback.events == []
      ensures e.None? ==> fallback !in logger.Repr
      ensures e == LoggerErr(c, dig)
      ensures err == if e.Some? then NewErr(c, dig) else ProvideErr(c, dig)
      ensures container.entries == EntriesAfterNew(c, dig) && container.calls == LoggerCalls(c, dig)
      ensures lifecycle.hooks == HooksOf(c, dig, container.entries, container.calls)
    {
      hide ProvideErr, EntriesBeforeLogger, Append;
      e := ConstructCustomLogger(buffer, ctor);
      assert [BuildLogger][..0] == [];
      if e.Some? {
        err := Append(err, e);
        logger.HandOver(buffer, fallback);
        logger.LogEvent(CustomLoggerError(e.value));
      } else {
        logger.LogEvent(CustomLogger(ctor));
      }
    }

    /** The phases before the invokes: container, provides, logger. */
    method Prepare(ghost c: Options.Config, fallback: Sink) returns (failed: bool)
      requires Configuring() && c == Config() && lifecycle.hooks == [] && fallback == logger.log.sink
      modifies this`err, this`container, logger.Repr, lifecycle`hooks
      ensures Valid() && container != null && fresh(logger.Repr - old(logger.Repr)) && fresh(container)
      ensures RoutedBy(c, fallback)
      ensures c.logConstructor.Some? && LoggerErr(c, dig).None? ==> fallback !in logger.Repr
      ensures failed <==> LoggerErr(c, dig).Some?
      ensures err == if failed then NewErr(c, dig) else ProvideErr(c, dig)
      ensures container.entries == EntriesAfterNew(c, dig) && container.calls == LoggerCalls(c, dig)
      ensures logger.emitted == EventsUpToProvides(c, dig) + LoggerEvents(c, dig)
      ensures lifecycle.hooks == HooksOf(c, dig, container.entries, container.calls)
    {
      hide ProvideErr, EntriesBeforeLogger, EventsUpToProvides;
      failed := false;
      var buffer: LogBuffer? := null;
      if logConstructor.Some? {
        buffer := logger.Buffer();
      }
      container := new Container(dig);
      RegisterProvides(c);
      if logConstructor.Some? {
        var e := SetUpLogger(c, logConstructor.value, buffer, fallback);
        failed := e.Some?;
      }
    }

    /** The invokes, and the error hooks if one of them fails. */
    method RunInvokes(ghost c: Options.Config)
      requires Valid() && container != null && validate == c.validate && err.None? && handled == []
      requires invokes == c.invokes && errorHooks == c.errorHooks
      requires container.entries == EntriesAfterNew(c, dig) && container.calls == LoggerCalls(c, dig)
      requires lifecycle.hooks == HooksOf(c, dig, container.entries, container.calls)
      modifies this`err, this`handled, container`calls, lifecycle`hooks, logger.Repr
      ensures Valid() && logger.Repr == old(logger.Repr) && logger.log == old(logger.log)
      ensures logger.log.Buffered? ==> logger.log.buffer.logger == old(logger.log.buffer.logger)
      ensures err == InvokeErr(c, dig)
      ensures container.calls == old(container.calls) + CallsOf(Attempted(c, dig))
      ensures lifecycle.hooks == HooksOf(c, dig, container.entries, container.calls)
      ensures logger.emitted == old(logger.emitted) + InvokeEvents(Attempted(c, dig)) +
        if err.None? then [] else [InvokeError(InvokeId(c.invokes[BadInvoke(c, dig)]), err.value)]
      ensures handled ==
        if err.None? then [] else HandledBy(c.errorHooks, err.value, dig.canVisualize(err.value))
    {
      hide EntriesAfterNew, LoggerCalls, HooksOf, InvokeOutcome, FirstBadInvoke, CallsOf, InvokeEvents;
      var e, m := ExecuteInvokes(c);
      assert m == BadInvoke(c, dig);
      if e.Some? {
        err := e;
        HandleErrors(e.value);
      }
    }

    /** Everything New does once the options are applied. */
    method Build(ghost c: Options.Config)
      requires Configuring() && c == Config() && lifecycle.hooks == []
      modifies this, logger.Repr, lifecycle`hooks
      ensures Valid() && container != null
      ensures RoutedBy(c, old(logger.log.sink))
      ensures startTimeout == old(startTimeout) && stopTimeout == old(stopTimeout)
      ensures err == NewErr(c, dig)
      ensures container.entries == EntriesAfterNew(c, dig) && container.calls == NewCalls(c, dig)
      ensures logger.emitted == NewEvents(c, dig)
      ensures handled == NewHandled(c, dig)
      ensures lifecycle.hooks == HooksOf(c, dig, container.entries, container.calls)
    {
      hide ProvideErr, LoggerErr, EventsUpToProvides, EntriesAfterNew, LoggerCalls, LoggerEvents, HooksOf, InvokeErr,
        Attempted, CallsOf, InvokeEvents;
      var failed := Prepare(c, logger.log.sink);
      if !failed && err.None? {
        RunInvokes(c);
      }
    }

    /** New: the phases of NewSpec, for the configuration that the options mean. */
    static method New(opts: seq<Opt>, dig: Dig, env: Callbacks) returns (app: App, ghost fallback: Sink)
      ensures
        var c := ApplyLeaves(DefaultConfig(), AllLeaves(opts));
        && app.Valid() && app.container != null && app.dig == dig && app.lifecycle.env == env
        && app.startTimeout == c.startTimeout && app.stopTimeout == c.stopTimeout
        && app.err == NewErr(c, dig)
        && app.container.entries == EntriesAfterNew(c, dig) && app.container.calls == NewCalls(c, dig)
        && app.logger.emitted == NewEvents(c, dig)
        && app.handled == NewHandled(c, dig)
        && app.lifecycle.State() ==
             NewState().(hooks := HooksOf(c, dig, app.container.entries, app.container.calls),
                         events := app.logger.emitted)
      ensures
        var c := ApplyLeaves(DefaultConfig(), AllLeaves(opts));
        && PhasesInOrder(c, dig, app.err, app.container.entries, app.container.calls)
        && HooksFollowLog(c.errorHooks, dig, app.err, app.logger.emitted, app.handled)
      ensures
        var c, log := ApplyLeaves(DefaultConfig(), AllLeaves(opts)), app.logger.log;
        && fallback.name == c.log
        && if c.logConstructor.None? || !LoggerBuilt(dig, c.logConstructor.value, app.container.entries) then
             log == Direct(fallback) && fallback.events == app.logger.emitted
           else if !c.validate then
             && log.Direct? && log.sink.name == Custom(c.logConstructor.value)
             && log.sink.events == app.logger.emitted && fallback.events == []
           else
             && log.Buffered? && log.buffer.logger == null
             && log.buffer.events == app.logger.emitted && fallback.events == []
    {
      hide PhasesInOrder, HooksFollowLog, LoggerBuilt, LoggerErr, NewErr, NewEvents, NewCalls, NewHandled,
        EntriesAfterNew, HooksOf;
      app := new App(dig, env);
      app.ApplyAll(opts);
      fallback := app.logger.log.sink;
      ghost var c := ApplyLeaves(DefaultConfig(), AllLeaves(opts));
      app.Build(c);
      NewPhases(c, dig);
      if c.logConstructor.Some? {
        LoggerBuiltMeans(c, dig);
      }
      ErrorHooksRunOnInvokeFailure(c, dig);
    }

    // ----- Start -----

    /** start: short-circuits if New failed, and rolls back if a hook fails. */
    method RunStart() returns (e: Option<Error>)
      requires Valid() && lifecycle.numStarted == 0
      modifies lifecycle, logger.Repr
      ensures Valid() && logger.Repr == old(logger.Repr) && logger.log == old(logger.log)
      ensures (lifecycle.State(), e) == AppSpec.AppStart(old(lifecycle.State()), err, lifecycle.env)
      ensures logger.log.Direct? ==> logger.log.sink.events == logger.emitted
    {
      hide LifecycleSpec.Start, LifecycleSpec.Stop, Append;
      if err.Some? {
        return err;
      }
      e := lifecycle.Start();
      if e.Some? {
        logger.LogEvent(Rollback(e.value));
        var stopErr := lifecycle.Stop();
        if stopErr.Some? {
          logger.LogEvent(RollbackError(stopErr.value));
          e := Append(e, stopErr);
        }
      } else {
        logger.LogEvent(Running);
      }
    }
  }
}
