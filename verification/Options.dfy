/** Options, and the configuration a tree of them builds. */
module Options {
  import opened Errors
  import opened Logging

  /** What can be passed to fx.Provide, and the constructors fx provides itself. */
  datatype Target =
    | OptionTarget(id: nat)
    | Annotated(name: string, group: string, target: nat)
    | Constructor(fn: nat, returnsAnnotated: bool)
    | OtherValue(id: nat)
    | LifecycleConstructor
    | ShutdownerConstructor
    | DotGraphConstructor

  datatype Provide = Provide(target: Target, isSupply: bool)

  datatype Invoke = InvokeOption(id: nat) | InvokeFn(fn: nat)

  datatype Opt =
    | ProvideOpt(targets: seq<Target>)
    | SupplyOpt(targets: seq<Target>)
    | InvokeOpt(fns: seq<Invoke>)
    | ErrorOpt(errs: seq<Option<Error>>)
    | Group(opts: seq<Opt>)
    | StartTimeout(timeout: int)
    | StopTimeout(timeout: int)
    | WithLogger(ctor: nat)
    | Logger(printer: nat)
    | ErrorHook(handlers: seq<nat>)
    | Validate(validate: bool)

  /** The fields of App that options set. */
  datatype Config = Config(
    constructors: seq<Provide>,
    invokes: seq<Invoke>,
    errorHooks: seq<nat>,
    err: Option<Error>,
    startTimeout: int,
    stopTimeout: int,
    log: SinkName,
    logConstructor: Option<nat>,
    validate: bool)

  const DEFAULT_TIMEOUT := 15_000_000_000

  function DefaultConfig(): Config {
    Config([], [], [], None, DEFAULT_TIMEOUT, DEFAULT_TIMEOUT, Stderr, None, false)
  }

  // ----- Flattening -----

  /** The options of a tree that are not groups, from left to right. */
  function Leaves(o: Opt): seq<Opt> {
    if o.Group? then AllLeaves(o.opts) else [o]
  }

  function AllLeaves(os: seq<Opt>): seq<Opt> {
    if os == [] then [] else Leaves(os[0]) + AllLeaves(os[1..])
  }

  function Provides(targets: seq<Target>, isSupply: bool): (ps: seq<Provide>)
    ensures |ps| == |targets|
    ensures forall i | 0 <= i < |ps| :: ps[i] == Provide(targets[i], isSupply)
  {
    if targets == [] then [] else [Provide(targets[0], isSupply)] + Provides(targets[1..], isSupply)
  }

  /** The effect of one option that is not a group. */
  function ApplyLeaf(c: Config, o: Opt): Config {
    match o
    case ProvideOpt(ts) => c.(constructors := c.constructors + Provides(ts, false))
    case SupplyOpt(ts) => c.(constructors := c.constructors + Provides(ts, true))
    case InvokeOpt(fns) => c.(invokes := c.invokes + fns)
    case ErrorOpt(errs) => c.(err := Append(c.err, Combine(errs)))
    case Group(_) => c
    case StartTimeout(t) => c.(startTimeout := t)
    case StopTimeout(t) => c.(stopTimeout := t)
    case WithLogger(ctor) => c.(logConstructor := Some(ctor))
    case Logger(p) => c.(log := Printer(p))
    case ErrorHook(hs) => c.(errorHooks := c.errorHooks + hs)
    case Validate(v) => c.(validate := v)
  }

  /** Applying leaves from left to right. */
  function ApplyLeaves(c: Config, leaves: seq<Opt>): Config {
    if leaves == [] then c
    else ApplyLeaf(ApplyLeaves(c, leaves[..|leaves| - 1]), leaves[|leaves| - 1])
  }

  lemma {:induction false} ApplyLeavesConcat(c: Config, a: seq<Opt>, b: seq<Opt>)
    ensures ApplyLeaves(c, a + b) == ApplyLeaves(ApplyLeaves(c, a), b)
  {
    if b == [] {
      assert a + b == a;
    } else {
      assert (a + b)[..|a + b| - 1] == a + b[..|b| - 1];
      ApplyLeavesConcat(c, a, b[..|b| - 1]);
    }
  }

  lemma {:induction false} AllLeavesConcat(a: seq<Opt>, b: seq<Opt>)
    ensures AllLeaves(a + b) == AllLeaves(a) + AllLeaves(b)
  {
    if a == [] {
      assert a + b == b;
    } else {
      assert (a + b)[1..] == a[1..] + b;
      AllLeavesConcat(a[1..], b);
    }
  }

  /** Applying the first i + 1 options of a list is applying the first i and then the next one. */
  lemma ApplyNext(c: Config, os: seq<Opt>, i: nat)
    requires i < |os|
    ensures ApplyLeaves(c, AllLeaves(os[..i + 1])) == ApplyLeaves(ApplyLeaves(c, AllLeaves(os[..i])), Leaves(os[i]))
  {
    hide ApplyLeaves, Leaves;
    assert os[..i + 1] == os[..i] + [os[i]];
    AllLeavesConcat(os[..i], [os[i]]);
    assert [os[i]][1..] == [];
    assert AllLeaves([os[i]]) == Leaves(os[i]);
    ApplyLeavesConcat(c, AllLeaves(os[..i]), Leaves(os[i]));
  }

  lemma ApplyNone(c: Config, os: seq<Opt>)
    ensures ApplyLeaves(c, AllLeaves(os[..0])) == c
  {
  }

  // ----- What the leaves mean, field by field -----

  function ProvidesIn(o: Opt): seq<Provide> {
    match o
    case ProvideOpt(ts) => Provides(ts, false)
    case SupplyOpt(ts) => Provides(ts, true)
    case _ => []
  }

  function InvokesIn(o: Opt): seq<Invoke> {
    if o.InvokeOpt? then o.fns else []
  }

  function ErrorHooksIn(o: Opt): seq<nat> {
    if o.ErrorHook? then o.handlers else []
  }

  /** The lists that part picks from each leaf, one after the other. */
  function Collect<T>(leaves: seq<Opt>, part: Opt -> seq<T>): seq<T> {
    if leaves == [] then [] else Collect(leaves[..|leaves| - 1], part) + part(leaves[|leaves| - 1])
  }

  /** Every error passed to fx.Error that is not nil. */
  function GivenErrors(leaves: seq<Opt>): seq<Error> {
    if leaves == [] then []
    else
      var o := leaves[|leaves| - 1];
      GivenErrors(leaves[..|leaves| - 1]) + if o.ErrorOpt? then NonNil(o.errs) else []
  }

  /** The value picked from the last leaf that has one. */
  function Latest<T>(leaves: seq<Opt>, pick: Opt -> Option<T>, default: T): T {
    if leaves == [] then default
    else
      var v := pick(leaves[|leaves| - 1]);
      if v.Some? then v.value else Latest(leaves[..|leaves| - 1], pick, default)
  }

  function PickStart(o: Opt): Option<int> { if o.StartTimeout? then Some(o.timeout) else None }
  function PickStop(o: Opt): Option<int> { if o.StopTimeout? then Some(o.timeout) else None }
  function PickLog(o: Opt): Option<SinkName> { if o.Logger? then Some(Printer(o.printer)) else None }
  function PickCtor(o: Opt): Option<Option<nat>> { if o.WithLogger? then Some(Some(o.ctor)) else None }
  function PickValidate(o: Opt): Option<bool> { if o.Validate? then Some(o.validate) else None }

  /** Provides, invokes and error hooks are those of the leaves, in order. */
  lemma {:induction false} LeavesMeanTheirLists(c: Config, leaves: seq<Opt>)
    ensures ApplyLeaves(c, leaves).constructors == c.constructors + Collect(leaves, ProvidesIn)
    ensures ApplyLeaves(c, leaves).invokes == c.invokes + Collect(leaves, InvokesIn)
    ensures ApplyLeaves(c, leaves).errorHooks == c.errorHooks + Collect(leaves, ErrorHooksIn)
  {
    hide ApplyLeaf, ProvidesIn, InvokesIn, ErrorHooksIn;
    if leaves != [] {
      LeafMeansItsLists(ApplyLeaves(c, leaves[..|leaves| - 1]), leaves[|leaves| - 1]);
      LeavesMeanTheirLists(c, leaves[..|leaves| - 1]);
    }
  }

  lemma LeafMeansItsLists(c: Config, o: Opt)
    ensures ApplyLeaf(c, o).constructors == c.constructors + ProvidesIn(o)
    ensures ApplyLeaf(c, o).invokes == c.invokes + InvokesIn(o)
    ensures ApplyLeaf(c, o).errorHooks == c.errorHooks + ErrorHooksIn(o)
  {
  }

  /** The last writer wins for both timeouts, the logger, the logger constructor and validation. */
  lemma {:induction false} LeavesMeanTheirSettings(c: Config, leaves: seq<Opt>)
    ensures ApplyLeaves(c, leaves).startTimeout == Latest(leaves, PickStart, c.startTimeout)
    ensures ApplyLeaves(c, leaves).stopTimeout == Latest(leaves, PickStop, c.stopTimeout)
    ensures ApplyLeaves(c, leaves).log == Latest(leaves, PickLog, c.log)
    ensures ApplyLeaves(c, leaves).logConstructor == Latest(leaves, PickCtor, c.logConstructor)
    ensures ApplyLeaves(c, leaves).validate == Latest(leaves, PickValidate, c.validate)
  {
    hide Errors.Append, Combine, Provides;
    if leaves != [] {
      LeavesMeanTheirSettings(c, leaves[..|leaves| - 1]);
    }
  }

  /** Every error given to fx.Error is kept, in order, and an error is set exactly if one was given. */
  lemma {:induction false} LeavesMeanTheirErrors(c: Config, leaves: seq<Opt>)
    ensures ErrorsOf(ApplyLeaves(c, leaves).err) == ErrorsOf(c.err) + FlattenAll(GivenErrors(leaves))
    ensures ApplyLeaves(c, leaves).err.None? <==> c.err.None? && GivenErrors(leaves) == []
  {
    hide CombineErrors, Errors.Append, FlattenAll, NonNil;
    NoErrorsGiven(c);
    if leaves != [] {
      var before, o := leaves[..|leaves| - 1], leaves[|leaves| - 1];
      LeavesMeanTheirErrors(c, before);
      if o.ErrorOpt? {
        var given := NonNil(o.errs);
        CombineErrorsParts(given);
        AppendIsCombine(ApplyLeaves(c, before).err, Combine(o.errs));
        FlattenAllConcat(GivenErrors(before), given);
      } else {
        assert GivenErrors(leaves) == GivenErrors(before);
      }
    }
  }

  lemma NoErrorsGiven(c: Config)
    ensures FlattenAll(GivenErrors([])) == [] && ApplyLeaves(c, []) == c
  {
  }

  /**
   * Splicing the options of a group into the place of the group changes nothing. In particular nesting
   * to the left or to the right is the same, and an empty group does nothing.
   */
  lemma NestingDoesNotMatter(before: seq<Opt>, inner: seq<Opt>, after: seq<Opt>)
    ensures Leaves(Group(before + [Group(inner)] + after)) == Leaves(Group(before + inner + after))
  {
    AllLeavesConcat(before + [Group(inner)], after);
    AllLeavesConcat(before, [Group(inner)]);
    AllLeavesConcat(before + inner, after);
    AllLeavesConcat(before, inner);
    assert [Group(inner)][1..] == [];
    assert AllLeaves([Group(inner)]) == AllLeaves(inner);
  }
}
