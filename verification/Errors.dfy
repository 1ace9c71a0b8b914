/** Error values, and the part of go.uber.org/multierr that Fx relies on. */
module Errors {

  datatype Option<+T> = None | Some(value: T) {
    function GetOr(default: T): T {
      if Some? then value else default
    }
  }

  /** Why fx itself produced an error; every constructor carries what the message reports. */
  datatype Reason =
    | OptionProvided        // an fx.Option was passed to fx.Provide
    | NameAndGroup          // an fx.Annotated names both a Name and a Group
    | ReturnsAnnotated      // a constructor returns fx.Annotated
    | ProvideFailed         // the container rejected a constructor
    | OptionInvoked         // an fx.Option was passed to fx.Invoke
    | LoggerProvideFailed   // the container rejected the fx.WithLogger constructor

  datatype Error =
    | DeadlineExceeded
    | Canceled
    | Plain(id: nat)
    | Multi(errors: seq<Error>)
    | Reported(reason: Reason, subject: nat, cause: Option<Error>)

  /** The list multierr.Errors returns: empty for nil, the parts of a combined error, or the error alone. */
  function ErrorsOf(e: Option<Error>): seq<Error> {
    match e
    case None => []
    case Some(Multi(es)) => es
    case Some(x) => [x]
  }

  function AsList(e: Option<Error>): seq<Error> {
    if e.Some? then [e.value] else []
  }

  /** The non-nil entries of errs, in order. */
  function NonNil(errs: seq<Option<Error>>): seq<Error> {
    if errs == [] then []
    else AsList(errs[0]) + NonNil(errs[1..])
  }

  /** The parts of all errors of errs, in order. */
  function FlattenAll(errs: seq<Error>): seq<Error> {
    if errs == [] then [] else ErrorsOf(Some(errs[0])) + FlattenAll(errs[1..])
  }

  /** multierr.Combine on errors that are known not to be nil. */
  function CombineErrors(errs: seq<Error>): Option<Error> {
    if |errs| == 0 then None
    else if |errs| == 1 then Some(errs[0])
    else Some(Multi(FlattenAll(errs)))
  }

  /** multierr.Combine. */
  function Combine(errs: seq<Option<Error>>): Option<Error> {
    CombineErrors(NonNil(errs))
  }

  /** multierr.Append. */
  function Append(left: Option<Error>, right: Option<Error>): Option<Error> {
    if left.None? then right
    else if right.None? then left
    else Some(Multi(ErrorsOf(left) + ErrorsOf(right)))
  }

  /** Combining loses no part and keeps the order; the result is nil only when nothing failed. */
  lemma CombineErrorsParts(errs: seq<Error>)
    ensures ErrorsOf(CombineErrors(errs)) == FlattenAll(errs)
    ensures CombineErrors(errs).None? <==> errs == []
    ensures |errs| == 1 ==> CombineErrors(errs) == Some(errs[0])
  {
    if |errs| == 1 {
      assert FlattenAll(errs) == ErrorsOf(Some(errs[0])) + FlattenAll(errs[1..]);
    }
  }

  lemma {:induction false} FlattenAllConcat(xs: seq<Error>, ys: seq<Error>)
    ensures FlattenAll(xs + ys) == FlattenAll(xs) + FlattenAll(ys)
  {
    if xs == [] {
      assert xs + ys == ys;
    } else {
      assert (xs + ys)[1..] == xs[1..] + ys;
      FlattenAllConcat(xs[1..], ys);
    }
  }

  lemma {:induction false} NonNilConcat(xs: seq<Option<Error>>, ys: seq<Option<Error>>)
    ensures NonNil(xs + ys) == NonNil(xs) + NonNil(ys)
  {
    if xs == [] {
      assert xs + ys == ys;
    } else {
      assert (xs + ys)[1..] == xs[1..] + ys;
      NonNilConcat(xs[1..], ys);
    }
  }

  /** Append is the two-argument Combine. */
  lemma AppendIsCombine(left: Option<Error>, right: Option<Error>)
    ensures Append(left, right) == Combine([left, right])
    ensures ErrorsOf(Append(left, right)) == ErrorsOf(left) + ErrorsOf(right)
    ensures Append(left, right).None? <==> left.None? && right.None?
  {
    var both := [left, right];
    assert both[1..] == [right] && [right][1..] == [];
    assert NonNil([right]) == if right.Some? then [right.value] else [];
    if left.Some? && right.Some? {
      var es := [left.value, right.value];
      assert NonNil(both) == es;
      assert es[1..] == [right.value] && [right.value][1..] == [];
      assert FlattenAll([right.value]) == ErrorsOf(right) + FlattenAll([]);
      assert FlattenAll(es) == ErrorsOf(left) + ErrorsOf(right);
    }
  }
}
