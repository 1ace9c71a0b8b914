/**
 * What New does with a configuration, phase by phase. The dependency injection container is an oracle:
 * it accepts or rejects a constructor, and an Invoke succeeds or fails and may run constructors that
 * append lifecycle hooks, depending on everything it was given before.
 */
module NewSpec {
  import opened Errors
  import opened Events
  import opened Options

  /** What is registered with the container. */
  datatype Entry = ProvidedConstructor(target: Target) | LoggerConstructor(ctor: nat)

  /** What the container is asked to invoke. */
  datatype Call = RunFn(fn: nat) | BuildLogger

  datatype Invocation = Invocation(err: Option<Error>, appended: seq<Hook>)

  datatype Dig = Dig(
    provide: (seq<Entry>, Entry) -> Option<Error>,
    invoke: (seq<Entry>, seq<Call>, Call) -> Invocation,
    canVisualize: Error -> bool)

  /** The error given to an error handler, with a graph attached if the container can draw one. */
  datatype Handled = Handled(handler: nat, err: Error, graph: bool)

  // ----- Provides -----

  /** How logs and errors name what was provided: the first few numbers stand for fx's own constructors. */
  function TargetId(t: Target): nat {
    match t
    case LifecycleConstructor => 0
    case ShutdownerConstructor => 1
    case DotGraphConstructor => 2
    case OptionTarget(id) => OWN_CONSTRUCTORS + id
    case Annotated(_, _, target) => OWN_CONSTRUCTORS + target
    case Constructor(fn, _) => OWN_CONSTRUCTORS + fn
    case OtherValue(id) => OWN_CONSTRUCTORS + id
  }

  const OWN_CONSTRUCTORS: nat := 3

  /** The error app.provide sets for p, when entries were registered before. */
  function ProvideOutcome(dig: Dig, entries: seq<Entry>, p: Provide): Option<Error> {
    var t := p.target;
    if t.OptionTarget? then Some(Reported(OptionProvided, TargetId(t), None))
    else if t.Annotated? && |t.group| > 0 && |t.name| > 0 then Some(Reported(NameAndGroup, TargetId(t), None))
    else if t.Constructor? && t.returnsAnnotated then Some(Reported(ReturnsAnnotated, TargetId(t), None))
    else
      var err := dig.provide(entries, ProvidedConstructor(t));
      if err.Some? then Some(Reported(ProvideFailed, TargetId(t), err)) else None
  }

  function EntriesOf(ps: seq<Provide>): (es: seq<Entry>)
    ensures |es| == |ps|
  {
    if ps == [] then [] else EntriesOf(ps[..|ps| - 1]) + [ProvidedConstructor(ps[|ps| - 1].target)]
  }

  function ProvideEvents(ps: seq<Provide>): seq<Event> {
    if ps == [] then []
    else
      var p := ps[|ps| - 1];
      ProvideEvents(ps[..|ps| - 1]) +
      [if p.isSupply then Supplied(TargetId(p.target)) else Events.Provided(TargetId(p.target))]
  }

  lemma NoProvides(ps: seq<Provide>)
    ensures EntriesOf(ps[..0]) == [] && ProvideEvents(ps[..0]) == []
  {
  }

  lemma ProvidesNext(ps: seq<Provide>, i: nat)
    requires i < |ps|
    ensures EntriesOf(ps[..i + 1]) == EntriesOf(ps[..i]) + [ProvidedConstructor(ps[i].target)]
    ensures ProvideEvents(ps[..i + 1]) == ProvideEvents(ps[..i]) + ProvideEvents([ps[i]])
  {
    assert ps[..i + 1][..i] == ps[..i];
    assert [ps[i]][..0] == [];
  }

  /** Registering ps[i] fails, given that everything before it was registered. */
  predicate Refused(dig: Dig, ps: seq<Provide>, i: nat)
    requires i < |ps|
  {
    ProvideOutcome(dig, EntriesOf(ps[..i]), ps[i]).Some?
  }

  /** The first provide that fails from i on; |ps| if there is none. */
  function FirstRefused(dig: Dig, ps: seq<Provide>, i: nat := 0): (n: nat)
    requires i <= |ps|
    ensures i <= n <= |ps|
    ensures forall j | i <= j < n :: !Refused(dig, ps, j)
    ensures n < |ps| ==> Refused(dig, ps, n)
    decreases |ps| - i
  {
    if i == |ps| || Refused(dig, ps, i) then i else FirstRefused(dig, ps, i + 1)
  }

  /** The provides of the options, followed by the ones New adds itself. */
  function AllProvides(c: Config): (ps: seq<Provide>)
    ensures |ps| == |c.constructors| + 3
  {
    c.constructors + [Provide(LifecycleConstructor, false), Provide(ShutdownerConstructor, false),
                      Provide(DotGraphConstructor, false)]
  }

  /** How many provides are registered: none at all if an error was given as an option. */
  function NumRegistered(c: Config, dig: Dig): (n: nat)
    ensures n <= |AllProvides(c)|
  {
    if c.err.Some? then 0 else FirstRefused(dig, AllProvides(c))
  }

  function Registered(c: Config, dig: Dig): seq<Provide> {
    AllProvides(c)[..NumRegistered(c, dig)]
  }

  /** app.err once the provides are done. */
  function ProvideErr(c: Config, dig: Dig): Option<Error> {
    var ps, n := AllProvides(c), NumRegistered(c, dig);
    if c.err.Some? then c.err
    else if n < |ps| then ProvideOutcome(dig, EntriesOf(ps[..n]), ps[n])
    else None
  }

  function EventsUpToProvides(c: Config, dig: Dig): seq<Event> {
    ProvideEvents(Registered(c, dig)) +
    if ProvideErr(c, dig).Some? then [ProvideError(ProvideErr(c, dig).value)] else []
  }

  // ----- The custom logger -----

  function EntriesBeforeLogger(c: Config, dig: Dig): seq<Entry> {
    EntriesOf(Registered(c, dig))
  }

  predicate LoggerAccepted(c: Config, dig: Dig) {
    c.logConstructor.Some? &&
    dig.provide(EntriesBeforeLogger(c, dig), LoggerConstructor(c.logConstructor.value)).None?
  }

  /** Everything registered with the container in the end. */
  function EntriesAfterNew(c: Config, dig: Dig): seq<Entry> {
    EntriesBeforeLogger(c, dig) +
    if LoggerAccepted(c, dig) then [LoggerConstructor(c.logConstructor.value)] else []
  }

  /** The error of constructing the logger of fx.WithLogger; None also if there is none to construct. */
  function LoggerErr(c: Config, dig: Dig): Option<Error> {
    if c.logConstructor.None? then None
    else if LoggerAccepted(c, dig) then dig.invoke(EntriesAfterNew(c, dig), [], BuildLogger).err
    else
      var ctor := c.logConstructor.value;
      Some(Reported(LoggerProvideFailed, ctor, dig.provide(EntriesBeforeLogger(c, dig), LoggerConstructor(ctor))))
  }

  function LoggerCalls(c: Config, dig: Dig): seq<Call> {
    if LoggerAccepted(c, dig) then [BuildLogger] else []
  }

  function LoggerEvents(c: Config, dig: Dig): seq<Event> {
    if c.logConstructor.None? then []
    else if LoggerErr(c, dig).Some? then [CustomLoggerError(LoggerErr(c, dig).value)]
    else [CustomLogger(c.logConstructor.value)]
  }

  // ----- Invokes -----

  /** New goes on to the invokes. */
  predicate ReachesInvokes(c: Config, dig: Dig) {
    ProvideErr(c, dig).None? && LoggerErr(c, dig).None?
  }

  function CallsOf(fns: seq<Invoke>): seq<Call> {
    if fns == [] then []
    else
      var f := fns[|fns| - 1];
      CallsOf(fns[..|fns| - 1]) + CallOf(f)
  }

  function CallOf(f: Invoke): seq<Call> {
    if f.InvokeFn? then [RunFn(f.fn)] else []
  }

  function InvokeId(f: Invoke): nat {
    if f.InvokeFn? then f.fn else f.id
  }

  /** The error of one invoke, given the calls made before it. */
  function InvokeOutcome(dig: Dig, entries: seq<Entry>, calls: seq<Call>, f: Invoke): Option<Error> {
    match f
    case InvokeOption(id) => Some(Reported(OptionInvoked, id, None))
    case InvokeFn(fn) => dig.invoke(entries, calls, RunFn(fn)).err
  }

  /** Invoke j fails, given that the ones before it ran. */
  predicate InvokeFails(dig: Dig, entries: seq<Entry>, calls: seq<Call>, fns: seq<Invoke>, j: nat)
    requires j < |fns|
  {
    InvokeOutcome(dig, entries, calls + CallsOf(fns[..j]), fns[j]).Some?
  }

  function FirstBadInvoke(dig: Dig, entries: seq<Entry>, calls: seq<Call>, fns: seq<Invoke>, i: nat := 0): (m: nat)
    requires i <= |fns|
    ensures i <= m <= |fns|
    ensures forall j | i <= j < m :: !InvokeFails(dig, entries, calls, fns, j)
    ensures m < |fns| ==> InvokeFails(dig, entries, calls, fns, m)
    decreases |fns| - i
  {
    if i == |fns| || InvokeFails(dig, entries, calls, fns, i) then i
    else FirstBadInvoke(dig, entries, calls, fns, i + 1)
  }

  function InvokeEvents(fns: seq<Invoke>): seq<Event> {
    if fns == [] then [] else InvokeEvents(fns[..|fns| - 1]) + [Invoking(InvokeId(fns[|fns| - 1]))]
  }

  /** The first failing invoke, in the container New built. */
  function BadInvoke(c: Config, dig: Dig): (m: nat)
    ensures m <= |c.invokes|
  {
    FirstBadInvoke(dig, EntriesAfterNew(c, dig), LoggerCalls(c, dig), c.invokes)
  }

  function InvokeErr(c: Config, dig: Dig): Option<Error> {
    var m := BadInvoke(c, dig);
    if m == |c.invokes| then None
    else
      InvokeOutcome(dig, EntriesAfterNew(c, dig), LoggerCalls(c, dig) + CallsOf(c.invokes[..m]), c.invokes[m])
  }

  /** The invokes that are attempted: up to and including the first that fails. */
  function Attempted(c: Config, dig: Dig): seq<Invoke> {
    var m := BadInvoke(c, dig);
    if m < |c.invokes| then c.invokes[..m + 1] else c.invokes
  }

  lemma NoInvokes(fns: seq<Invoke>)
    ensures CallsOf(fns[..0]) == [] && InvokeEvents(fns[..0]) == []
  {
  }

  lemma CallsOfNext(fns: seq<Invoke>, i: nat)
    requires i < |fns|
    ensures CallsOf(fns[..i + 1]) == CallsOf(fns[..i]) + CallOf(fns[i])
    ensures InvokeEvents(fns[..i + 1]) == InvokeEvents(fns[..i]) + [Invoking(InvokeId(fns[i]))]
  {
    assert fns[..i + 1][..i] == fns[..i];
  }

  // ----- New -----

  /** The error the application ends up with. */
  function NewErr(c: Config, dig: Dig): Option<Error> {
    if LoggerErr(c, dig).Some? then Append(ProvideErr(c, dig), LoggerErr(c, dig))
    else if ProvideErr(c, dig).Some? then ProvideErr(c, dig)
    else InvokeErr(c, dig)
  }

  /** What the container was asked to invoke, in order. */
  function NewCalls(c: Config, dig: Dig): seq<Call> {
    LoggerCalls(c, dig) + if ReachesInvokes(c, dig) then CallsOf(Attempted(c, dig)) else []
  }

  /** The events of the invoke phase. */
  function InvokePhaseEvents(c: Config, dig: Dig): seq<Event> {
    if !ReachesInvokes(c, dig) then []
    else
      InvokeEvents(Attempted(c, dig)) +
      if InvokeErr(c, dig).None? then []
      else [InvokeError(InvokeId(c.invokes[BadInvoke(c, dig)]), InvokeErr(c, dig).value)]
  }

  /** Every event emitted, in order. */
  function NewEvents(c: Config, dig: Dig): seq<Event> {
    EventsUpToProvides(c, dig) + LoggerEvents(c, dig) + InvokePhaseEvents(c, dig)
  }

  function HandledBy(handlers: seq<nat>, err: Error, graph: bool): (hs: seq<Handled>)
    ensures |hs| == |handlers|
    ensures forall i | 0 <= i < |hs| :: hs[i] == Handled(handlers[i], err, graph)
  {
    if handlers == [] then []
    else HandledBy(handlers[..|handlers| - 1], err, graph) + [Handled(handlers[|handlers| - 1], err, graph)]
  }

  /** The calls of error handlers. */
  function NewHandled(c: Config, dig: Dig): seq<Handled> {
    if ReachesInvokes(c, dig) && InvokeErr(c, dig).Some?
    then HandledBy(c.errorHooks, InvokeErr(c, dig).value, dig.canVisualize(InvokeErr(c, dig).value))
    else []
  }

  /** The hooks appended by the container while it made calls, unless it only validates. */
  function HooksOf(c: Config, dig: Dig, entries: seq<Entry>, calls: seq<Call>): seq<Hook> {
    if calls == [] || c.validate then []
    else
      HooksOf(c, dig, entries, calls[..|calls| - 1]) +
      dig.invoke(entries, calls[..|calls| - 1], calls[|calls| - 1]).appended
  }
}
