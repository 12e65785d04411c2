/** The `try` package: a chain bound to one error.

    `New(err)` holds an error; each `Catch(f)` either leaves a nil error
    alone or validates `f` and, when the held error matches, replaces it by
    `f`'s result. `Error()` reads the held error. */
module Try {
  import opened Wrappers
  import Errors
  import opened Reflect
  import opened Dispatch

  /** The bound chain: the currently held error, nil once suppressed. */
  datatype Bound = Bound(err: Option<Errors.Error>)

  /** `Error()`: the held error. */
  function Error(b: Bound): Option<Errors.Error> {
    b.err
  }

  /** `New(err)`: a chain holding `err`, which `Error()` gives back. */
  function New(err: Option<Errors.Error>): (b: Bound)
    ensures Error(b) == err
  {
    Bound(err)
  }

  /** Does `Catch(f)` on `b` invoke `f`? Only for a non-nil held error that
      `f`'s parameter accepts. */
  predicate Invokes(b: Bound, f: Handler)
    requires b.err.Some? ==> Accepts(f.ty, true)
  {
    b.err.Some? && Match(b.err.value, f.ty.ins[0])
  }

  /** `Catch(f)`: a nil held error makes the call a no-op, without even
      validating `f`; otherwise `f` is validated and, when the held error
      matches its parameter, `f`'s result becomes the held error. */
  function Catch(b: Bound, f: Handler): (r: Result<Bound, string>)
    ensures b.err.None? ==> r == Success(b)
    ensures b.err.Some? ==> (r.Success? <==> Accepts(f.ty, true))
    ensures b.err.Some? && r.Failure? ==> r == Failure(Validate(f.ty, true).error)
    ensures r.Success? && Invokes(b, f) ==> Error(r.value) == f.call(b.err.value)
    ensures r.Success? && !Invokes(b, f) ==> r.value == b
  {
    match b.err
    case None => Success(b)
    case Some(e) =>
      match Validate(f.ty, true)
      case Failure(msg) => Failure(msg)
      case Success(param) => Success(Bound(Step(Item(param, f.call), b.err)))
  }

  /** What a chain of `Catch` calls produces: the handlers invoked, by their
      position in the chain, in the order of invocation, and either the final
      chain or the panic that ended it. Handlers that ran before a panic stay
      in the trace. */
  datatype Chained = Chained(calls: seq<Call>, outcome: Result<Bound, string>)

  /** `b.Catch(hs[i])...Catch(hs[|hs|-1])`: the handlers invoked along the
      way, and the final chain or the panic of the first handler rejected. */
  function CatchAll(b: Bound, hs: seq<Handler>, i: nat): (r: Chained)
    requires i <= |hs|
    // a nil error is absorbing: every later handler is skipped unvalidated
    ensures b.err.None? ==> r == Chained([], Success(b))
    // a panic is the first rejected handler's message, raised after only earlier handlers ran
    ensures r.outcome.Failure? ==>
              && FirstInvalid(hs, i) < |hs|
              && r.outcome.error == Validate(hs[FirstInvalid(hs, i)].ty, true).error
              && forall j :: 0 <= j < |r.calls| ==> r.calls[j].index < FirstInvalid(hs, i)
    ensures b.err.Some? && (forall k :: i <= k < |hs| ==> Accepts(hs[k].ty, true)) ==> r.outcome.Success?
    // handlers are invoked in the order they are chained
    ensures forall k :: 0 <= k < |r.calls| ==> i <= r.calls[k].index < |hs|
    ensures forall k, l :: 0 <= k < l < |r.calls| ==> r.calls[k].index < r.calls[l].index
    // without any invocation the held error is unchanged
    ensures r.outcome.Success? && |r.calls| == 0 ==> r.outcome.value == b
    decreases |hs| - i
  {
    if i == |hs| then Chained([], Success(b))
    else
      match Catch(b, hs[i])
      case Failure(msg) => Chained([], Failure(msg))
      case Success(b') =>
        var here := if Invokes(b, hs[i]) then [Call(i, b.err.value)] else [];
        var rest := CatchAll(b', hs, i + 1);
        var all := here + rest.calls;
        Chained(all, rest.outcome)
  }

  /** When `hs[k]` is the first invalid handler, the chain does what the
      chain of the handlers before it does, followed by one more `Catch`:
      the same handlers run, and it panics exactly when the error is still
      non-nil once `hs[k]` is reached. */
  lemma {:induction false} RejectedAfterPrefix(b: Bound, hs: seq<Handler>, i: nat, k: nat)
    requires i <= |hs| && k == FirstInvalid(hs, i) < |hs|
    ensures CatchAll(b, hs[..k], i).outcome.Success?
    ensures CatchAll(b, hs, i).calls == CatchAll(b, hs[..k], i).calls
    ensures CatchAll(b, hs, i).outcome
            == if CatchAll(b, hs[..k], i).outcome.value.err.Some?
               then Failure(Validate(hs[k].ty, true).error)
               else CatchAll(b, hs[..k], i).outcome
    decreases k - i
  {
    if i < k {
      assert hs[..k][i] == hs[i];
      var b' := Catch(b, hs[i]).value;
      RejectedAfterPrefix(b', hs, i + 1, k);
    }
  }
}
