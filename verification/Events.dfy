/** Hooks, hook records and the events Fx emits. Functions and call sites are opaque identifiers. */
module Events {
  import opened Errors

  type Func = nat

  datatype Method = OnStart | OnStop

  /** A lifecycle hook: two optional callbacks and the function that appended them. */
  datatype Hook = Hook(onStart: Option<Func>, onStop: Option<Func>, caller: string)

  /** Go's zero Hook, the value of runningHook before any callback ran. */
  const NO_HOOK := Hook(None, None, "")

  datatype HookRecord = HookRecord(caller: string, func: Func, runtime: int)

  datatype Event =
    | HookExecuting(hookMethod: Method, caller: string, func: Func)
    | HookExecuted(hookMethod: Method, caller: string, func: Func, runtime: int, err: Option<Error>)
    | Supplied(target: nat)
    | Provided(target: nat)
    | ProvideError(cause: Error)
    | Invoking(fn: nat)
    | InvokeError(fn: nat, cause: Error)
    | CustomLogger(ctor: nat)
    | CustomLoggerError(cause: Error)
    | Rollback(cause: Error)
    | RollbackError(cause: Error)
    | Running
}
