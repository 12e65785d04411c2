/** The behaviour the packages' tests exercise, stated on the model. Each
    handler that a test guards with "must not call this" is shown not to be
    invoked; call counters become the length of the invocation trace. */
module Scenarios {
  import opened Wrappers
  import opened Errors
  import opened Reflect
  import opened Dispatch
  import Catch
  import Try
  import Agreement

  const errorHandler := Func([ErrorInterface], [ErrorInterface])      // func(error) error
  const pathHandler := Func([Concrete(PathErrorTag)], [ErrorInterface]) // func(*os.PathError) error
  const finallyHandler := Func([ErrorInterface], [])                  // func(error)

  function Suppress(e: Error): Option<Error> { None }
  function PassOn(e: Error): Option<Error> { Some(e) }
  /** `return err.Err` in a `*os.PathError` handler. */
  function Unwrap(e: Error): Option<Error> {
    if e.PathError? then e.cause else Some(e)
  }

  /** A `*os.PathError` parameter never accepts an `errors.New` value; an
      `error` parameter accepts every error. */
  lemma MatchIsByType(text: string, e: Error)
    ensures !Match(ErrorString(text), Concrete(PathErrorTag))
    ensures Match(e, ErrorInterface)
    ensures Match(PathError("open", "/tmp", None), Concrete(PathErrorTag))
  {
  }

  /** The four handlers the invalid-input tests reject, with their messages:
      the integer `1`, `func(int) error`, `func(error, int) error` and
      `func(error) int`. */
  lemma InvalidCatchHandlers(b: Catch.Block, bound: Try.Bound, e: Error)
    requires bound.err == Some(e)
    ensures Catch.Catch(b, Handler(NotFunc, PassOn)) == Failure(MustBeFunc)
    ensures Catch.Catch(b, Handler(Func([NonError("int")], [ErrorInterface]), PassOn)) == Failure(MustTakeOneError)
    ensures Catch.Catch(b, Handler(Func([ErrorInterface, NonError("int")], [ErrorInterface]), PassOn))
            == Failure(MustTakeOneError)
    ensures Catch.Catch(b, Handler(Func([ErrorInterface], [NonError("int")]), PassOn)) == Failure(MustReturnOneError)
    ensures Try.Catch(bound, Handler(NotFunc, PassOn)) == Failure(MustBeFunc)
    ensures Try.Catch(bound, Handler(Func([NonError("int")], [ErrorInterface]), PassOn)) == Failure(MustTakeOneError)
    ensures Try.Catch(bound, Handler(Func([ErrorInterface, NonError("int")], [ErrorInterface]), PassOn))
            == Failure(MustTakeOneError)
    ensures Try.Catch(bound, Handler(Func([ErrorInterface], [NonError("int")]), PassOn)) == Failure(MustReturnOneError)
  {
  }

  /** An `interface{}` parameter accepts every error, yet `validate` rejects
      it, because `interface{}` does not implement `error`. */
  lemma EmptyInterfaceRejected(b: Catch.Block, e: Error)
    ensures Match(e, EmptyInterface)
    ensures Catch.Catch(b, Handler(Func([EmptyInterface], [ErrorInterface]), PassOn)) == Failure(MustTakeOneError)
    ensures Catch.Finally(b, Handler(Func([EmptyInterface], []), PassOn)) == Failure(MustTakeOneError)
    ensures Catch.Catch(b, Handler(Func([ErrorInterface], [EmptyInterface]), PassOn)) == Failure(MustReturnOneError)
  {
  }

  /** A finally handler's results are never checked, only its kind, arity and
      parameter type. */
  lemma FinallyIgnoresResults(b: Catch.Block, outs: seq<GoType>)
    ensures Catch.Finally(b, Handler(Func([ErrorInterface], outs), PassOn)).Success?
    ensures Catch.Finally(b, Handler(Func([NonError("int")], outs), PassOn)) == Failure(MustTakeOneError)
  {
  }

  /** The chain of the first catch test: a `*os.PathError` catch, a finally,
      two `error` catches that suppress, and a second finally. */
  function FirstTestChain(): Catch.Block {
    var b1 := Catch.Catch(Catch.New(), Handler(pathHandler, Suppress)).value;
    var b2 := Catch.Finally(b1, Handler(finallyHandler, PassOn)).value;
    var b3 := Catch.Catch(b2, Handler(errorHandler, Suppress)).value;
    var b4 := Catch.Catch(b3, Handler(errorHandler, Suppress)).value;
    Catch.Finally(b4, Handler(finallyHandler, PassOn)).value
  }

  /** The lists that the first catch test's registrations produce. */
  const firstTestBlock := Catch.Block([Item(Concrete(PathErrorTag), Suppress), Item(ErrorInterface, Suppress), Item(ErrorInterface, Suppress)],
                                      [Item(ErrorInterface, PassOn), Item(ErrorInterface, PassOn)])

  /** The registrations of the first catch test produce these lists. */
  lemma FirstTestChainLists()
    ensures FirstTestChain() == firstTestBlock
  {
  }

  /** The error the first catch test fires its chain with. */
  const firstTestError := ErrorString("string")

  /** Firing those lists on the test's `errors.New` value. */
  lemma FirstTestBlockFires()
    ensures var e := firstTestError;
            Catch.Try(firstTestBlock, e) == Catch.Outcome(None, [Call(1, e)], [Call(1, e), Call(0, e)])
  {
    var b := firstTestBlock;
    var e := firstTestError;
    assert Catch.RunCatch(b.catchItems, 1, e) == Pass(None, [Call(1, e)]);
    assert Catch.RunCatch(b.catchItems, 0, e) == Pass(None, [Call(1, e)]);
    assert Catch.RunFinally(b.finallyItems, e, 1) == [Call(0, e)];
    assert Catch.RunFinally(b.finallyItems, e, 2) == [Call(1, e), Call(0, e)];
  }

  /** The first catch test: the `*os.PathError` catch is skipped, the first
      `error` catch suppresses, the second is never reached, and both finally
      handlers still run, latest first, on the original error (1 + 2 = 3). */
  lemma SuppressedChainStillFinalizes()
    ensures var e := ErrorString("string");
            var o := Catch.Try(FirstTestChain(), e);
            && o.err == None
            && o.caught == [Call(1, e)]
            && o.finalized == [Call(1, e), Call(0, e)]
  {
    FirstTestChainLists();
    FirstTestBlockFires();
  }

  /** The handlers of the "chain" tests: a `*os.PathError` catch that must
      not run, an `error` catch passing the error on, and one suppressing it. */
  function PassThenSuppress(): seq<Handler> {
    [Handler(pathHandler, Suppress), Handler(errorHandler, PassOn), Handler(errorHandler, Suppress)]
  }

  /** Registering these handlers on `catch.New()` gives these records. */
  lemma PassThenSuppressLists()
    ensures Catch.CatchAll(Catch.New(), PassThenSuppress())
            == Success(Catch.Block([Item(Concrete(PathErrorTag), Suppress), Item(ErrorInterface, PassOn), Item(ErrorInterface, Suppress)], []))
  {
    var hs := PassThenSuppress();
    var b := Catch.CatchAll(Catch.New(), hs).value;
    assert |b.catchItems| == 3 && b.finallyItems == [];
    assert b.catchItems[0] == Item(hs[0].ty.ins[0], hs[0].call);
    assert b.catchItems[1] == Item(hs[1].ty.ins[0], hs[1].call);
    assert b.catchItems[2] == Item(hs[2].ty.ins[0], hs[2].call);
    assert b.catchItems == [b.catchItems[0], b.catchItems[1], b.catchItems[2]];
  }

  /** Both `error` catches see the same `errors.New` value ("stringstring"),
      and the chain ends suppressed. */
  lemma CatchPassThenSuppress()
    ensures Catch.CatchAll(Catch.New(), PassThenSuppress()).Success?
    ensures var e := ErrorString("string");
            var o := Catch.Try(Catch.CatchAll(Catch.New(), PassThenSuppress()).value, e);
            o.err == None && o.caught == [Call(1, e), Call(2, e)]
  {
    PassThenSuppressLists();
    var b := Catch.CatchAll(Catch.New(), PassThenSuppress()).value;
    var e := ErrorString("string");
    assert Catch.RunCatch(b.catchItems, 2, e) == Pass(None, [Call(2, e)]);
    assert b.catchItems[1].call(e) == Some(e);
    assert [Call(1, e)] + [Call(2, e)] == [Call(1, e), Call(2, e)];
    assert Catch.RunCatch(b.catchItems, 1, e) == Pass(None, [Call(1, e), Call(2, e)]);
  }

  /** The same handlers chained onto `try.New`. */
  lemma TryPassThenSuppress()
    ensures var e := ErrorString("string");
            Try.CatchAll(Try.New(Some(e)), PassThenSuppress(), 0)
            == Try.Chained([Call(1, e), Call(2, e)], Success(Try.Bound(None)))
  {
    CatchPassThenSuppress();
    Agreement.VariantsAgree(ErrorString("string"), PassThenSuppress());
  }

  /** The handlers of the "chain multiple" tests: unwrap a `*os.PathError`,
      then two `error` catches passing the error on. */
  function UnwrapThenPass(): seq<Handler> {
    [Handler(pathHandler, Unwrap), Handler(errorHandler, PassOn), Handler(errorHandler, PassOn)]
  }

  /** Registering these handlers on `catch.New()` gives these records. */
  lemma UnwrapThenPassLists()
    ensures Catch.CatchAll(Catch.New(), UnwrapThenPass())
            == Success(Catch.Block([Item(Concrete(PathErrorTag), Unwrap), Item(ErrorInterface, PassOn), Item(ErrorInterface, PassOn)], []))
  {
    var hs := UnwrapThenPass();
    var b := Catch.CatchAll(Catch.New(), hs).value;
    assert |b.catchItems| == 3 && b.finallyItems == [];
    assert b.catchItems[0] == Item(hs[0].ty.ins[0], hs[0].call);
    assert b.catchItems[1] == Item(hs[1].ty.ins[0], hs[1].call);
    assert b.catchItems[2] == Item(hs[2].ty.ins[0], hs[2].call);
    assert b.catchItems == [b.catchItems[0], b.catchItems[1], b.catchItems[2]];
  }

  /** Unwrapping lets both later `error` catches run on the inner cause: three
      invocations and a non-nil result. */
  lemma CatchUnwrapThenPass()
    ensures Catch.CatchAll(Catch.New(), UnwrapThenPass()).Success?
    ensures var inner := ErrorString("string");
            var e := PathError("", "", Some(inner));
            var o := Catch.Try(Catch.CatchAll(Catch.New(), UnwrapThenPass()).value, e);
            o.err == Some(inner) && o.caught == [Call(0, e), Call(1, inner), Call(2, inner)]
  {
    UnwrapThenPassLists();
    var b := Catch.CatchAll(Catch.New(), UnwrapThenPass()).value;
    var inner := ErrorString("string");
    var e := PathError("", "", Some(inner));
    assert Catch.RunCatch(b.catchItems, 3, inner) == Pass(Some(inner), []);
    assert b.catchItems[0].call(e) == Some(inner);
    assert b.catchItems[1].call(inner) == Some(inner);
    assert b.catchItems[2].call(inner) == Some(inner);
    assert [Call(2, inner)] + [] == [Call(2, inner)];
    assert Catch.RunCatch(b.catchItems, 2, inner) == Pass(Some(inner), [Call(2, inner)]);
    assert [Call(1, inner)] + [Call(2, inner)] == [Call(1, inner), Call(2, inner)];
    assert Catch.RunCatch(b.catchItems, 1, inner) == Pass(Some(inner), [Call(1, inner), Call(2, inner)]);
    assert [Call(0, e)] + [Call(1, inner), Call(2, inner)] == [Call(0, e), Call(1, inner), Call(2, inner)];
    assert Catch.RunCatch(b.catchItems, 0, e) == Pass(Some(inner), [Call(0, e), Call(1, inner), Call(2, inner)]);
  }

  /** The same handlers chained onto `try.New`. */
  lemma TryUnwrapThenPass()
    ensures var inner := ErrorString("string");
            var e := PathError("", "", Some(inner));
            Try.CatchAll(Try.New(Some(e)), UnwrapThenPass(), 0)
            == Try.Chained([Call(0, e), Call(1, inner), Call(2, inner)], Success(Try.Bound(Some(inner))))
  {
    CatchUnwrapThenPass();
    Agreement.VariantsAgree(PathError("", "", Some(ErrorString("string"))), UnwrapThenPass());
  }

  /** The handlers of the "chain break" tests: unwrap a `*os.PathError`, then
      two `error` catches that suppress. */
  function UnwrapThenSuppress(): seq<Handler> {
    [Handler(pathHandler, Unwrap), Handler(errorHandler, Suppress), Handler(errorHandler, Suppress)]
  }

  /** Registering these handlers on `catch.New()` gives these records. */
  lemma UnwrapThenSuppressLists()
    ensures Catch.CatchAll(Catch.New(), UnwrapThenSuppress())
            == Success(Catch.Block([Item(Concrete(PathErrorTag), Unwrap), Item(ErrorInterface, Suppress), Item(ErrorInterface, Suppress)], []))
  {
    var hs := UnwrapThenSuppress();
    var b := Catch.CatchAll(Catch.New(), hs).value;
    assert |b.catchItems| == 3 && b.finallyItems == [];
    assert b.catchItems[0] == Item(hs[0].ty.ins[0], hs[0].call);
    assert b.catchItems[1] == Item(hs[1].ty.ins[0], hs[1].call);
    assert b.catchItems[2] == Item(hs[2].ty.ins[0], hs[2].call);
    assert b.catchItems == [b.catchItems[0], b.catchItems[1], b.catchItems[2]];
  }

  /** The first suppression breaks the loop: two invocations, not three. */
  lemma CatchUnwrapThenSuppress()
    ensures Catch.CatchAll(Catch.New(), UnwrapThenSuppress()).Success?
    ensures var inner := ErrorString("string");
            var e := PathError("", "", Some(inner));
            var o := Catch.Try(Catch.CatchAll(Catch.New(), UnwrapThenSuppress()).value, e);
            o.err == None && o.caught == [Call(0, e), Call(1, inner)]
  {
    UnwrapThenSuppressLists();
    var b := Catch.CatchAll(Catch.New(), UnwrapThenSuppress()).value;
    var inner := ErrorString("string");
    var e := PathError("", "", Some(inner));
    assert Catch.RunCatch(b.catchItems, 1, inner) == Pass(None, [Call(1, inner)]);
    assert b.catchItems[0].call(e) == Some(inner);
    assert [Call(0, e)] + [Call(1, inner)] == [Call(0, e), Call(1, inner)];
    assert Catch.RunCatch(b.catchItems, 0, e) == Pass(None, [Call(0, e), Call(1, inner)]);
  }

  /** The same handlers chained onto `try.New`: the nil error makes the third
      `Catch` a no-op. */
  lemma TryUnwrapThenSuppress()
    ensures var inner := ErrorString("string");
            var e := PathError("", "", Some(inner));
            Try.CatchAll(Try.New(Some(e)), UnwrapThenSuppress(), 0)
            == Try.Chained([Call(0, e), Call(1, inner)], Success(Try.Bound(None)))
  {
    CatchUnwrapThenSuppress();
    Agreement.VariantsAgree(PathError("", "", Some(ErrorString("string"))), UnwrapThenSuppress());
  }

  /** After suppression the bound chain skips even an invalid handler, while
      the reusable chain rejects it at registration: the variants agree only
      on valid handlers. */
  lemma NilSkipsValidation()
    ensures var bad := Handler(NotFunc, PassOn);
            var hs := [Handler(errorHandler, Suppress), bad];
            && Try.CatchAll(Try.New(Some(ErrorString("string"))), hs, 0).outcome.Success?
            && Catch.CatchAll(Catch.New(), hs) == Failure(MustBeFunc)
  {
  }

  /** While the error is non-nil, the bound chain runs the handlers before an
      invalid one and only then panics; the reusable chain panics at
      registration, before any handler can run. */
  lemma PanicAfterEarlierCalls()
    ensures var e := ErrorString("string");
            var hs := [Handler(errorHandler, PassOn), Handler(NotFunc, PassOn)];
            && Try.CatchAll(Try.New(Some(e)), hs, 0) == Try.Chained([Call(0, e)], Failure(MustBeFunc))
            && Catch.CatchAll(Catch.New(), hs) == Failure(MustBeFunc)
  {
  }

  /** The handlers of the first try test: a `*os.PathError` catch and two
      `error` catches, all suppressing. */
  function SuppressAll(): seq<Handler> {
    [Handler(pathHandler, Suppress), Handler(errorHandler, Suppress), Handler(errorHandler, Suppress)]
  }

  /** Registering these handlers on `catch.New()` gives these records. */
  lemma SuppressAllLists()
    ensures Catch.CatchAll(Catch.New(), SuppressAll())
            == Success(Catch.Block([Item(Concrete(PathErrorTag), Suppress), Item(ErrorInterface, Suppress), Item(ErrorInterface, Suppress)], []))
  {
    var hs := SuppressAll();
    var b := Catch.CatchAll(Catch.New(), hs).value;
    assert |b.catchItems| == 3 && b.finallyItems == [];
    assert b.catchItems[0] == Item(hs[0].ty.ins[0], hs[0].call);
    assert b.catchItems[1] == Item(hs[1].ty.ins[0], hs[1].call);
    assert b.catchItems[2] == Item(hs[2].ty.ins[0], hs[2].call);
    assert b.catchItems == [b.catchItems[0], b.catchItems[1], b.catchItems[2]];
  }

  /** The first try test: only the first `error` catch runs, and the held
      error ends nil. */
  lemma TrySuppressAll()
    ensures var e := ErrorString("string");
            Try.CatchAll(Try.New(Some(e)), SuppressAll(), 0) == Try.Chained([Call(1, e)], Success(Try.Bound(None)))
  {
    SuppressAllLists();
    var e := ErrorString("string");
    var b := Catch.CatchAll(Catch.New(), SuppressAll()).value;
    assert Catch.RunCatch(b.catchItems, 1, e) == Pass(None, [Call(1, e)]);
    assert Catch.RunCatch(b.catchItems, 0, e) == Pass(None, [Call(1, e)]);
    assert Catch.Try(b, e).err == None && Catch.Try(b, e).caught == [Call(1, e)];
    Agreement.VariantsAgree(e, SuppressAll());
  }
}
