# A model of Fx: lifecycle, timeouts, construction and shutdown

Fx runs an application built from constructors: `New` applies options, registers constructors with a
dependency injection container, hands its log over to a custom logger, and runs the invoked functions;
`Start` runs the OnStart hooks in order and rolls back if one fails; `Stop` runs the OnStop hooks of the
started hooks in reverse; both run under a deadline in a goroutine of their own; and a shutdown signal is
broadcast to every Done channel. This project models those parts, the `allfxevents` analysis and
`fx.Extract`, and proves what holds over all inputs, all runs and all interleavings.

`dafny verify dfyconfig.toml` checks the whole project.

## How the model is built

- **Callbacks are oracles.** The n-th callback ever invoked returns `env(n)`: an arbitrary error or nil, an
  arbitrary runtime, and any number of hooks that it appends while it runs. Theorems quantify over `env`. Hooks
  are also called with the context: `Interference` lets a callback react to every step of the goroutine and to
  when the context ended, and proves that each such run is a run with some `env` (`ReactiveRunIsARun`), so
  what holds for every `env` and every schedule holds for those callbacks too. The container (`Dig`) is an
  oracle of the same kind: it accepts or rejects, succeeds or fails, depending on everything it was given.
- **Lifecycle.** `LifecycleSpec` gives `Start` and `Stop` as functions on values. The class in
  `Lifecycle.dfy` has the fields and loops of the original and is proved against them. `LifecycleFacts`
  proves closed forms, hook by hook, that speak only of the hooks present on entry and of the outcomes of
  callbacks; `AppSpec` composes them into the all-or-nothing `start`; `LifecycleRuns` lifts them to runs of
  any length. The trace of a state records when each callback begins and when a hook starts or stops
  counting as started.
- **Timeouts.** `Timeouts` splits the goroutine of `withTimeout` into one step per access to shared state
  and interleaves it with the caller and the context. `Complete` is the sequential continuation of each
  program counter; no step changes it, so the goroutine refines the sequential callback under every
  schedule. `TimeoutViews` gives the shared fields in closed form wherever the goroutine is, and
  `TimeoutReports` says what a caller that gives up reads and answers. `Interference` takes the caller's steps
  out of any schedule without changing what the goroutine does.
- **Construction.** `Options` relates the `apply` methods to the flattening of the option tree; `NewSpec` states
  the phases of `New` by the first index that fails; `NewFacts` spells out what they come to, on the options and
  on the answers of the container alone; the class in `FxApp.dfy` is proved against them, with
  the logger handover as an invariant of `Logging.AppLogger`: whatever was emitted is delivered to the
  current logger or still in the buffer, in order, once.
- **Shutdown, analysis, Extract.** `Shutdown` has the loop over the channels and the interleaving of any
  number of broadcasters; `AllFxEvents` the mutating, pruning visitor against a recursive meaning;
  `Extract` the field selection and the scatter.

Three statements one might expect are false of the code, and the model says exactly when they hold:

- `Start` does not reset `numStarted`. It keeps the stack discipline exactly when it is entered with a count
  of zero (`StartNeedsFreshCursor`); two Starts in a row make `Stop` index past the hooks (`DoubleStartOverruns`).
- The report of a start that times out can list a hook that is later than the one it names, if a rollback has
  begun (`RollbackReportsEarlierHook`), and it can list records that an earlier start left, if it reads them
  before the goroutine resets them (`RestartReportsStaleRecords`). Neither happens, whatever the callbacks
  return and in every interleaving, exactly if no earlier start left records and the hook list has no OnStop
  callback before an OnStart callback before another OnStart callback (`StartReportsAreConsistent`). A report
  about Stop can only be stale, exactly if an earlier Stop left records (`StopReportsAreConsistent`).
- The analysis dereferences a nil type set when a type assertion or case clause outside any function comes
  before the first logger (`NoEarlyStrayMeans`, `StrayAssertionFails`); otherwise it is exact.

One comment disagrees with the code: the records of `Stop` are said to be of hooks that ran successfully
(`internal/lifecycle/lifecycle.go`, line 195), but a failed OnStop callback is recorded too. The model follows
the code (`StopRecordsMatchEvents`).

## Model

| member | source | states |
|---|---|---|
| `Errors.CombineErrorsParts` | internal/lifecycle/lifecycle.go:182 | combining loses no part and keeps the order; nil only if nothing failed; a single error comes back as it is |
| `Errors.AppendIsCombine` | app.go:894 | appending two errors is combining them: parts concatenated, nil only if both are |
| `Logging.LogBuffer.LogEvent` | log.go:35-41 | buffers while unconnected, passes on once connected |
| `Logging.LogBuffer.Connect` | log.go:44-50 | delivers everything buffered, in order and once, and keeps nothing |
| `Logging.AppLogger.LogEvent` | app.go:955-959 | the event reaches the logger that is current now; conservation of all events emitted is kept |
| `Logging.AppLogger.HandOver` | app.go:482-485 | after the handover the new logger holds exactly every event emitted so far, in order |
| `LifecycleSpec.StartFrom` | internal/lifecycle/lifecycle.go:79-121 | keeps the hooks of entry in place, counts at most those, and returns nil exactly if all of them started |
| `LifecycleSpec.StopFrom` | internal/lifecycle/lifecycle.go:133-180 | ends with nothing counted as started, and leaves the start records alone |
| `Lifecycles.Lifecycle.Append` | internal/lifecycle/lifecycle.go:62-68 | adds the hook with its caller at the end |
| `Lifecycles.Lifecycle.Start` | internal/lifecycle/lifecycle.go:77-122 | fields, events and result are those of the specification function, for any count on entry; the current logger stays |
| `Lifecycles.Lifecycle.Stop` | internal/lifecycle/lifecycle.go:126-183 | the same for Stop |
| `Lifecycles.Lifecycle.StartHookRecords` | internal/lifecycle/lifecycle.go:187-193 | a fresh copy of the start records |
| `Lifecycles.Lifecycle.StopHookRecords` | internal/lifecycle/lifecycle.go:197-203 | a fresh copy of the stop records |
| `LifecycleFacts.StartOutcome` | internal/lifecycle/lifecycle.go:77-122 | Start fails exactly at the first hook whose OnStart fails; closed forms of every field and of the trace in both cases |
| `LifecycleFacts.StopOutcome` | internal/lifecycle/lifecycle.go:126-183 | Stop is total and best-effort: closed form of every field whatever fails; the error combines all failures in call order, nil and single errors included |
| `LifecycleFacts.StopTraceCounts` | internal/lifecycle/lifecycle.go:133-180 | each started hook's OnStop, if any, runs exactly once and each is taken off exactly once; no other hook is touched |
| `LifecycleFacts.StartTraceCounts` | internal/lifecycle/lifecycle.go:79-119 | each OnStart, if any, runs exactly once and each hook is pushed exactly once |
| `LifecycleFacts.StartRecordsMatchEvents` | internal/lifecycle/lifecycle.go:78-119 | new events are Executing/Executed pairs, only the last can carry an error, exactly if Start fails with it, and the records are the successful pairs |
| `LifecycleFacts.StopRecordsMatchEvents` | internal/lifecycle/lifecycle.go:129-180 | the stop records match all pairs one to one, failed or not, with the logged runtime if it succeeded |
| `AppSpec.RollBackOutcome` | app.go:888-898 | a rollback stops everything that started, keeps the start records, has the stop records and events of that Stop between its own, and puts its errors after the start error |
| `AppSpec.StartSucceeds` | app.go:881-902 | without failure every hook of entry starts in order and Running is logged last |
| `AppSpec.StartIsAllOrNothing` | app.go:881-902 | a failure at hook k stops exactly the k hooks before it, latest first, leaves nothing started, and reports start error then OnStop errors; both record logs and every event in closed form |
| `AppSpec.FailedStartCallbacks` | app.go:881-902 | how often each callback of each hook runs in a failed start, for every hook |
| `LifecycleRuns.StartNeedsFreshCursor` | internal/lifecycle/lifecycle.go:78-118 | Start keeps the stack discipline if and only if nothing counts as started on entry |
| `LifecycleRuns.DoubleStartOverruns` | internal/lifecycle/lifecycle.go:78-118 | a concrete double Start after which more hooks count as started than there are |
| `LifecycleRuns.RunsAreOrderly` | internal/lifecycle/lifecycle.go:77-183 | over every run of Append, Start, Stop and App.start the stack is always [0..numStarted), never underflows, and starts less stops is 1 below the count and 0 above |
| `LifecycleRuns.RunsGoOn` | app.go:881-902 | any run can go on with any operation, except a start while something counts as started, and what each operation then adds to hooks, count and trace |
| `LifecycleRuns.DependencyOrder` | app.go:674-701 | in an orderly trace started hooks are closed under dependencies at every step; dependencies start before and stop after their dependents |
| `LifecycleRuns.RunsRespectDependencies` | app.go:674-701 | the same for every step of every run |
| `LifecycleRuns.AppendDuringStart` | internal/lifecycle/lifecycle.go:62-68 | however many hooks callbacks append, Start visits at most those of entry, Stop addresses exactly those started, and the next Start covers the enlarged list |
| `LifecycleRuns.InitErrorIsSticky` | app.go:881-885 | after a failed New every start of every run returns that same error, stops return nil, and no callback ever runs |
| `HookRecords.Swap` | internal/lifecycle/lifecycle.go:232-234 | exchanges two records in place |
| `HookRecords.LessIsStrictWeakOrder` | internal/lifecycle/lifecycle.go:227-230 | Less is irreflexive and transitive, so is being tied; ties are equal runtimes, and of two others the longer one comes first |
| `HookRecords.SortedThroughLess` | internal/lifecycle/lifecycle.go:227-230 | runtimes never increase if and only if Less holds of no record and an earlier one |
| `HookRecords.AnySwapSortSorts` | internal/lifecycle/lifecycle.go:223-234 | whatever swaps are made the outcome is a permutation, and its runtimes never increase exactly if Less holds of no neighbours |
| `HookRecords.Sort` | app.go:938 | an in-place sort through Less and Swap alone: runtimes never increase, and a permutation |
| `Timeouts.WorkerStepRefines` | app.go:911-913 | no step of the goroutine changes what the sequential callback computes |
| `Timeouts.WorkerIsNeverBlocked` | app.go:912-921 | under every schedule the goroutine can move until it finished, its send included, and then state and result are those of the sequential callback |
| `Timeouts.AnswersAre` | app.go:917-925 | under every schedule an error returned as it is is never DeadlineExceeded and is that of the finished callback or of the context; a caller reports only if one of these is DeadlineExceeded |
| `Timeouts.ResultWaits` | app.go:911-921 | once the goroutine finished, its result is in the channel and can be received, until the caller stopped selecting |
| `Timeouts.ReceivingAnswers` | app.go:920-925 | under every schedule a caller that receives answers with the result of the callback, or reports exactly if that is DeadlineExceeded |
| `Timeouts.DoneIsSeen` | app.go:917-919 | once the context ended, a caller that is still selecting can see that |
| `Timeouts.SeeingDoneAnswers` | app.go:917-925 | a caller that sees the context done answers with the error it ended with, or reports exactly if that is DeadlineExceeded |
| `Timeouts.CallerCanAnswer` | app.go:909-948 | every schedule can be extended to one in which the caller answers, without the context ending; a caller that was selecting then answers with the result of the callback, unless that is DeadlineExceeded |
| `Timeouts.StartNilMeansRunning` | app.go:881-902 | App.Start returns nil only if the goroutine finished, every hook of entry started in order and Running was logged last |
| `Timeouts.StopNilMeansStopped` | app.go:703-710 | App.Stop returns nil only if the goroutine finished with nothing started and no OnStop error |
| `Interference.CallerDoesNotInterfere` | app.go:911-948 | taking every step of the caller out of a schedule leaves a schedule that ends with the same lifecycle, goroutine and context, for callbacks that react to the context and to all the goroutine did |
| `Interference.ReactiveRunIsARun` | app.go:912-913 | a run whose callbacks react to the context is a run of the same schedule with the outcomes they returned |
| `Interference.OutcomesFixTheGoroutine` | app.go:911-921 | given the outcomes of the callbacks, lifecycle and goroutine depend only on how many steps the goroutine took |
| `Timeouts.WorkerEnds` | internal/lifecycle/lifecycle.go:79 | steps taken and steps left stay within a bound that depends on the hooks of entry alone, whatever callbacks append |
| `TimeoutReports.ReportIsConsistent` | app.go:927-948 | in every interleaving, if the running hook is read before a rollback stops anything, the records are exactly those of the first hooks in order, or what an earlier Start left if they are read before the reset; the hook reported is the one whose callback began last, and no hook recorded by this Start is later |
| `TimeoutReports.StopReportIsConsistent` | app.go:929-948 | in every interleaving a report about Stop has exactly the records of the OnStop calls of the hooks down to some point, failed or not, or what an earlier Stop left if they are read before the reset; it names the hook whose OnStop began last, which is no later in the list than any hook recorded by this Stop |
| `TimeoutReports.RollbackReport` | app.go:927-948 | at every point during or after a rollback the report has the records of the first hooks, or what an earlier Start left if they were read before the reset, and names the lowest hook whose OnStop began, or the failed one; a hook recorded by this Start is later than that exactly if the rollback has begun to stop a hook below a recorded one |
| `TimeoutReports.ReportsListOwnRecords` | internal/lifecycle/lifecycle.go:187-203 | in every interleaving of App.Start or App.Stop every report lists exactly the records its own call has made, if and only if no earlier call of that kind left any |
| `TimeoutReports.StartReportsAreConsistent` | internal/lifecycle/lifecycle.go:187-211 | in every interleaving, for all callbacks, every report about Start lists only its own records and none of a hook later than the one named, if and only if no earlier Start left records and no hook with an OnStop comes before one with an OnStart that comes before another with an OnStart |
| `TimeoutReports.StopReportsAreConsistent` | internal/lifecycle/lifecycle.go:197-211 | every report about Stop lists only its own records and none of a hook earlier than the one named, if and only if no earlier Stop left records |
| `TimeoutReports.RestartReportsStaleRecords` | internal/lifecycle/lifecycle.go:78 | a concrete restart under a context that is over, whose report lists two hooks run by the start before |
| `TimeoutReports.RollbackReportsEarlierHook` | internal/lifecycle/lifecycle.go:207-211 | a concrete rollback that reports a hook before a recorded one |
| `TimeoutReports.Report` | app.go:925-938 | the report sorts a private copy: runtimes never increase, a permutation of the records, and the lifecycle is not modified |
| `Options.LeavesMeanTheirLists` | app.go:100-107 | provides, invokes and error hooks of any option tree are those of its leaves, in order |
| `Options.LeavesMeanTheirSettings` | app.go:242-259 | last writer wins for timeouts, logger, logger constructor and validation |
| `Options.LeavesMeanTheirErrors` | app.go:176-178 | every non-nil error given is kept in order, and an error is set exactly if one was given |
| `Options.NestingDoesNotMatter` | app.go:221-225 | splicing a group into its place changes nothing: Options is associative with the empty group as identity |
| `NewSpec.FirstRefused` | app.go:749-752 | registration stops at the first provide that fails, and nowhere else |
| `NewSpec.FirstBadInvoke` | app.go:831-859 | invocation stops at the first invoke that fails, and nowhere else |
| `NewFacts.RegisteredIsMaximal` | app.go:749-827 | the container holds exactly the provides before the first failure, fx's own last, none if an error was given as an option; a provide is refused unasked exactly if it is an Option, an Annotated with name and group, or returns Annotated, each with its reason, and any other one exactly if the container refuses it, with its error as the cause of Err |
| `NewFacts.TargetIdsAreFaithful` | app.go:556-562 | logs and errors tell all constructors apart, fx's own included |
| `NewFacts.EarlierInvokesSucceed` | app.go:831-859 | each invoke before the first failing one was passed to the container in its place, and succeeded there |
| `NewFacts.FailedInvokeIsLast` | app.go:838-857 | the first failing invoke is an Option, refused without asking, or fails with the container's error; nothing is invoked after it, and without one all are |
| `NewFacts.NewErrIs` | app.go:573-592 | Err has the parts of the option's or provide's error, then of the logger's, or those of the failed invoke |
| `NewFacts.HooksAreInCallOrder` | app.go:555-558 | the lifecycle hooks after New are those that the container's calls appended, call by call; a dry run appends none |
| `NewFacts.NewPhases` | app.go:525-606 | invokes run only if no error was given, every constructor is registered and the logger was built first; Err is nil if and only if moreover no invoke fails |
| `NewFacts.ErrorHooksRunOnInvokeFailure` | app.go:592-604 | each error hook runs once, in order, exactly if the log ends with a failed invoke, with the cause logged there, which is Err, and a graph if the container can draw one |
| `NewFacts.NewLogAgrees` | app.go:564-604 | the log of New agrees with its outcome: the causes of its error events, in order, are exactly the parts of Err; the constructors announced are exactly those in the container, fx's own included; the functions announced are exactly those attempted |
| `NewFacts.NewLogReads` | app.go:552-604 | the log of New event by event: supplies and provides in order, the error that ended them, the logger or why it failed, the attempted invokes in order and the error of the last |
| `FxApp.App.Apply` | app.go:221-225 | applying any option tree gives the configuration of its leaves applied from left to right |
| `FxApp.App.ApplyOne` | app.go:147-154 | each single option changes its own field and no other |
| `FxApp.App.AddConstructors` | supply.go:84-93 | appends the constructors of fx.Provide or fx.Supply in order |
| `FxApp.App.Provide` | app.go:749-827 | after an error nothing happens; an Option, an Annotated with name and group and a constructor returning Annotated are refused with their reasons, any other is registered and logged exactly if the container accepts it |
| `FxApp.App.ProvideAll` | app.go:552-554 | the loop registers and logs exactly the provides before the first failure |
| `FxApp.App.RegisterProvides` | app.go:552-569 | the provide phase, with Lifecycle, Shutdowner and DotGraph last and the error event if it failed |
| `FxApp.App.ConstructCustomLogger` | app.go:471-486 | registers and builds the logger; the buffer is handed over only if it was built and the closure ran, which a dry run does not |
| `FxApp.App.SetUpLogger` | app.go:573-584 | the logger phase: on failure the fallback logger gets everything emitted and the error is appended; otherwise the custom logger gets it, or in a dry run the buffer keeps it |
| `FxApp.App.ExecuteInvokes` | app.go:831-859 | runs and logs the invokes up to and including the first failure, and returns that failure |
| `FxApp.App.HandleErrors` | app.go:436-440 | every handler, once, in order |
| `FxApp.App.Build` | app.go:525-606 | New's phases refine the pure specification: error, container, calls, events, handler calls and appended hooks; every event is with the fallback logger, the custom one, or the buffer of a dry run |
| `FxApp.App.New` | app.go:491-607 | the same for the whole of New, for every option list and container; the phase order, the meaning of Err, the error hooks, the timeouts and which logger holds every event are stated on the resulting application; nothing counts as started afterwards |
| `FxApp.App.RunStart` | app.go:881-902 | the imperative start refines its specification and keeps every event on the current logger |
| `Shutdown.Channel.TrySend` | shutdown.go:65-71 | a full channel keeps what it holds |
| `Shutdown.Dones.Done` | app.go:719-727 | registers a new empty channel |
| `Shutdown.Dones.BroadcastSignal` | shutdown.go:59-81 | every empty channel gets the signal, every full one keeps its own, and the error counts exactly the full ones |
| `Shutdown.SignalsAreConserved` | shutdown.go:59-81 | under every interleaving each channel delivers what it accepted, in order, and accepted sends equal receives plus full channels |
| `Shutdown.PendingIsKept` | shutdown.go:65-71 | only receiving changes a full channel |
| `Shutdown.EmptyIsFilled` | shutdown.go:65-71 | an empty channel takes what is offered to it, and nothing else |
| `Shutdown.WhatCanHappen` | shutdown.go:59-81 | in every interleaving broadcasts begin and go on whoever else broadcasts, signals arrive at any time, and registering waits only for broadcasts under way |
| `Shutdown.ConcurrentBroadcastsCount` | shutdown.go:59-81 | k concurrent broadcasters over n empty channels report (k-1)*n unsent signals together, in every interleaving, and each channel took exactly one signal, that of one of them |
| `Shutdown.UndisturbedBroadcast` | shutdown.go:59-81 | a broadcaster of the interleaving model that is left alone does what the sequential loop does |
| `AllFxEvents.TypeSet.Clone` | tools/analysis/passes/allfxevents/analysis.go:269-273 | an equal set that shares nothing with the original |
| `AllFxEvents.Visitor.Visit` | tools/analysis/passes/allfxevents/analysis.go:108-127 | removes exactly the types that a case clause lists or a type assertion asserts, and fails exactly if there is one and no set |
| `AllFxEvents.Visitor.FuncDeclEnter` | tools/analysis/passes/allfxevents/analysis.go:132-150 | enters exactly the LogEvent methods of loggers, each with a fresh copy of all events |
| `AllFxEvents.Visitor.FuncDeclExit` | tools/analysis/passes/allfxevents/analysis.go:152-181 | reports exactly if some but not all events are left |
| `AllFxEvents.Visitor.Walk` | tools/analysis/passes/allfxevents/analysis.go:211-233 | walking a tree with the pruning visitor removes exactly the types named by nodes reached without going through another case clause or type assertion |
| `AllFxEvents.AllNamedMeans` | tools/analysis/passes/allfxevents/analysis.go:108-127 | a type is named exactly if a path through other nodes leads to a case clause that lists it or a type assertion of it |
| `AllFxEvents.Visitor.RunPass` | tools/analysis/passes/allfxevents/analysis.go:93-100 | the whole pass reports exactly the loggers of files not named *_test.go that handle an event and miss one, without leaking state between functions, unless a stray node comes before the first logger |
| `AllFxEvents.PassReportsExactly` | tools/analysis/passes/allfxevents/analysis.go:93-100 | the recursive meaning of a package is a diagnostic for exactly those loggers |
| `AllFxEvents.ReportsExactly` | tools/analysis/passes/allfxevents/analysis.go:152-181 | a diagnostic appears exactly for each logger that handles an event and misses one, naming exactly the missing ones |
| `AllFxEvents.NoEarlyStrayMeans` | tools/analysis/passes/allfxevents/analysis.go:113-125 | the pass fails if and only if some declaration names a type outside functions with no logger before it |
| `AllFxEvents.StrayAssertionFails` | tools/analysis/passes/allfxevents/analysis.go:124-125 | a concrete file on which it fails |
| `Extract.Extract` | extract.go:38-121 | parameter fields and targets stay aligned with index, type and tag, and the targets are exactly the selected fields in order; other targets give an error |
| `Extract.SelectionIsExact` | extract.go:93-121 | the index map is strictly ascending, so injective, and reaches exactly the embedded fields of an exported type and the other exported fields |
| `Extract.Scatter` | extract.go:141-147 | every target holds its value and every other field is as it was |
| `Extract.ExtractInto` | extract.go:38-151 | after extraction each such field holds what the container supplied for its type and tag, and each other field is unchanged |

## Left out

- Overlapping clients: Start or Stop while an earlier goroutine is still running, hooks that call Start or Stop, and loggers that log from LogEvent. `numStarted` has no lock, so these are preconditions here; Start is entered at a count of zero in runs and in App.start.
- The reset of `startRecords` is not under the mutex; the model takes it as one step of the goroutine, before or after each read.
- The container, the visualization of its graph and its error values: an oracle, with a validating container as one whose Invoke runs nothing.
- Panics on nil options or nil constructors, and the text of error messages: an error is identified by its reason, its subject and its cause.
- `sort.Sort` itself is not part of this model: `HookRecords.AnySwapSortSorts` covers every algorithm that uses Less and Swap, and `HookRecords.Sort` is one.
- `App.Run`, OS signal registration, process exit and real timers: signals are abstract deliveries, the context may end at any moment.
- `Shutdown.Dones.BroadcastSignal` puts the loop of the original into a method of its own; `Lifecycle.Start` and `Lifecycle.Stop` do the same with their loop bodies.
- The analysis: finding the fxevent package and its event types, printing and sorting type names; type sets hold identifiers of identical types.
- `unicode.IsUpper` and the printing of field names in `Extract`: a parameter, and the index that the name is made from.
- Console and Zap loggers, `Populate`, the values built by `Supply`, and stack frames: forwarding, reflection and formatting, which would add only easy members.
