# block: typed error dispatch, modelled in Dafny

The Go library `github.com/fzerorubigd/block` dispatches an `error` value through a list
of typed handlers. Each handler is a Go function. It runs only when the error's dynamic
type can be assigned to the function's parameter type. The library has two packages built
on this mechanism:

- `catch` is a reusable chain. `Catch` and `Finally` register handlers, and `Try(err)`
  fires the chain. The catch records run in registration order. A matching record's result
  replaces the error, and a nil result breaks the loop. Then the finally records run in
  reverse registration order. Each is gated on the error that was passed to `Try`.
- `try` is a chain bound to one error. `New(err)` holds the error. Each `Catch(f)` applies
  one record to the held error straight away, and `Error()` reads it.

The model is pure and functional:

- `Errors` closes the set of dynamic error types over three: `*errors.errorString` and
  `*os.PathError` (with a nil-able cause), which the tests use, and the `*MyError` that
  catch/catch_test.go declares.
- `Reflect` models the parts of Go's `reflect` that the library consults: `Implements`,
  `AssignableTo`, `TypeOf`, and a handler's kind, parameters and results.
- `Dispatch` holds what the two packages share: handler records, `validate` with the
  source's exact panic messages, `match`, a single catch step, and `Fold`, which is the
  reference meaning of a catch list.
- `Catch` and `Try` model the two packages. A panic becomes `Failure(message)`. Handler
  side effects become invocation traces (`Call(index, arg)`).
- `Agreement` proves that, for a non-nil error and handlers that are all valid, the two
  packages return the same error after the same handler invocations. Outside those
  conditions they differ: on a nil error `try` skips validation (`Scenarios.NilSkipsValidation`)
  while `catch` rejects an invalid handler at registration, and `try` carries a nil error
  through as nil while `catch`'s `Try(nil)` panics as soon as its chain holds a record.
  The packages also panic at different times. With a non-nil error, `try` runs the handlers
  chained before an invalid one and then panics (`Scenarios.PanicAfterEarlierCalls`), while
  `catch` panics at registration, before any handler has run.
- `Scenarios` states the packages' test cases on the model.

`Catch.Try` returns no chain. A firing therefore cannot change the chain's lists, and the
same records are consulted by every later firing. Whether a later firing *behaves* the same
also depends on the handlers: in the model a handler's result is a function of its argument
alone (see "## Left out").

Two behaviours of the code are easy to misread. The model follows the code in both:

- `defer b.runFinally(err)` (catch/catch.go:135) evaluates `err` before the catch loop runs.
  So finally records are gated on, and receive, the *input* error, not the error the loop
  returns. This is why a suppressed chain still runs its `error`-typed finally handlers.
- `validate(fnType, false)` (catch/catch.go:86-90) never looks at a finally handler's
  results. So `Finally` accepts a function that returns values.

## Model

| member | source | states |
|---|---|---|
| Reflect.TypeOf | catch/catch.go:58 | the dynamic type of a non-nil error implements `error` and is never an interface type |
| Dispatch.Validate | catch/catch.go:77-91 | a handler is accepted iff it is a func with exactly one `error`-implementing parameter and, for catch handlers, exactly one `error`-implementing result; each failed check gives its own panic message, in the source's order; on success the parameter type is returned |
| Dispatch.Match | catch/catch.go:57-59 | matching is by type only: an `error` or `interface{}` parameter accepts every error, and a concrete parameter accepts exactly the errors of that dynamic type |
| Dispatch.FirstInvalid | catch/catch.go:94-96 | the position at which a chain of registrations first meets a handler that `validate` rejects: every handler before it passes, and the one there fails, unless every handler passes |
| Dispatch.FoldNil | catch/catch.go:136-143 | once the error is nil, no later catch record changes it |
| Dispatch.FoldNoMatch | catch/catch.go:136-144 | when no record accepts the input, the chain returns the input |
| Catch.New | catch/catch.go:147-150 | a new chain has no catch and no finally records |
| Catch.Catch | catch/catch.go:93-105 | `Catch` succeeds iff the handler is a valid catch handler, and otherwise panics with the validation message; on success it appends exactly one record at the end of the catch list, with the handler's parameter type and function, and leaves the finally list unchanged |
| Catch.Finally | catch/catch.go:107-119 | `Finally` succeeds iff the handler is a func with one `error` parameter, whatever it returns; on success it appends exactly one record to the finally list and leaves the catch list unchanged |
| Catch.CatchAll | catch/catch.go:93-105 | a fluent chain of `Catch` calls succeeds iff every handler is valid, and otherwise panics with the validation message of the first invalid handler; on success it appends one record per handler, in order, and keeps every record's parameter `error`-implementing |
| Catch.CanFireIffImplementsOrEmpty | catch/catch.go:57-59 | a parameter type accepts some error value exactly when it implements `error` or is `interface{}` |
| Catch.ValidRecordsCanFire | catch/catch.go:82-84 | after the parameter check in `validate`, every registered catch and finally record fires for some error; a chain passes that check exactly when every record can fire and none takes `interface{}`, which accepts every error but does not implement `error` |
| Catch.RunCatch | catch/catch.go:136-143 | the catch loop invokes records in strictly increasing registration order, and only records whose parameter accepts the error they are given |
| Catch.RunCatchEnds | catch/catch.go:136-144 | the first invoked record receives the input; the loop returns the last invoked record's result, or the input when nothing was invoked |
| Catch.RunCatchLinks | catch/catch.go:137-138 | each invoked record after the first receives the result of the one before it |
| Catch.RunCatchBreaks | catch/catch.go:139-141 | a record that returns nil is the last record invoked |
| Catch.RunCatchIsFold | catch/catch.go:136-144 | the loop with `break` returns the reference fold, in which a nil error is absorbing |
| Catch.RunCatchInvokes | catch/catch.go:136-143 | the loop invokes a record with an error exactly when the record is reached with that error current and accepts it; skipped records leave the error unchanged |
| Catch.RunFinally | catch/catch.go:121-131 | the deferred finally closures run in strictly decreasing registration order, once each at most, and all receive the captured error; a record is invoked iff it accepts that error |
| Catch.Try | catch/catch.go:133-145 | the returned error is the reference fold of the catch list. Catch invocations are in registration order, are exactly the records that accept the error current when reached, and are linked. A nil result ends the loop with nil. Every finally record is evaluated in reverse order against the input error, even when the catch phase suppressed it |
| Catch.NoMatchReturnsInput | catch/catch.go:136-144 | when no catch record accepts the input, `Try` invokes nothing and returns the input |
| Try.New | try/try.go:85-87 | `Error()` on a new chain gives back the error passed to `New` |
| Try.Catch | try/try.go:70-79 | a nil held error makes `Catch` a no-op, with no validation. A non-nil one makes `Catch` panic iff the handler is not a valid catch handler. A matching handler's result, possibly nil, replaces the held error, and a non-matching one leaves the chain unchanged |
| Try.CatchAll | try/try.go:70-79 | chained `Catch` calls on a nil error are all no-ops, so nil is absorbing. A panic carries the validation message of the handler at `Dispatch.FirstInvalid`, so every handler before it was valid, and the trace keeps the handlers that ran before the panic, all of them earlier in the chain. Valid handlers never panic. Invocations are in chaining order, and with no invocation the held error is unchanged |
| Try.RejectedAfterPrefix | try/try.go:70-79 | when `hs[k]` is the first invalid handler, the chain runs exactly the handlers that the chain of `hs[..k]` runs, and then panics with `hs[k]`'s message iff the error is still non-nil when `hs[k]` is reached; otherwise it ends as that prefix does |
| Agreement.StepsAgree | try/try.go:70-79 | from any position, chaining valid handlers onto a bound error produces the same error and the same invocations as the catch loop of `catch.Try` from that position |
| Agreement.VariantsAgree | catch/catch.go:134-145 | for a non-nil error and valid handlers, `try.New(e).Catch(h1)...Catch(hn)` ends with the error `catch.New().Catch(h1)...Catch(hn).Try(e)` returns, after the same invocations |
| Scenarios.MatchIsByType | catch/catch_test.go:23-27 | a `*os.PathError` parameter never accepts an `errors.New` value, and an `error` parameter accepts every error |
| Scenarios.InvalidCatchHandlers | catch/catch_test.go:119-147 | both packages reject `1`, `func(int) error`, `func(error, int) error` and `func(error) int`, each with its panic message |
| Scenarios.EmptyInterfaceRejected | catch/catch.go:82-89 | an `interface{}` parameter accepts every error but fails the parameter check, and an `interface{}` result fails the result check |
| Scenarios.FinallyIgnoresResults | catch/catch.go:108-110 | `Finally` accepts any results but still rejects a non-`error` parameter |
| Scenarios.FirstTestChainLists | catch/catch_test.go:23-46 | the registrations of the first catch test produce three catch records and two finally records, in order |
| Scenarios.SuppressedChainStillFinalizes | catch/catch_test.go:42-50 | the chain returns nil after invoking only the first `error` catch, and both finally handlers run, latest first, on the original error (1 + 2 = 3) |
| Scenarios.PassThenSuppressLists | catch/catch_test.go:55-69 | registering the "chain" test's handlers gives three catch records |
| Scenarios.CatchPassThenSuppress | catch/catch_test.go:53-73 | both `error` catches receive the same error ("stringstring") and the chain returns nil |
| Scenarios.TryPassThenSuppress | try/try_test.go:35-55 | the same holds for the bound chain |
| Scenarios.UnwrapThenPassLists | catch/catch_test.go:77-91 | registering the "chain multiple" test's handlers gives three catch records |
| Scenarios.CatchUnwrapThenPass | catch/catch_test.go:75-95 | unwrapping the `*os.PathError` lets both later `error` catches run on the inner cause: three invocations and a non-nil result |
| Scenarios.TryUnwrapThenPass | try/try_test.go:57-77 | the same holds for the bound chain |
| Scenarios.UnwrapThenSuppressLists | catch/catch_test.go:99-113 | registering the "chain break" test's handlers gives three catch records |
| Scenarios.CatchUnwrapThenSuppress | catch/catch_test.go:97-117 | the first suppression breaks the loop: two invocations, nil result |
| Scenarios.TryUnwrapThenSuppress | try/try_test.go:79-98 | the same holds for the bound chain, whose third `Catch` is a no-op |
| Scenarios.SuppressAllLists | try/try_test.go:14-29 | registering the first try test's handlers on a reusable chain gives three catch records |
| Scenarios.TrySuppressAll | try/try_test.go:12-33 | only the first `error` catch runs, and the held error ends nil |
| Scenarios.PanicAfterEarlierCalls | try/try.go:71-76 | with a non-nil error, the bound chain invokes an earlier valid handler and then panics with "must be a func", while the reusable chain panics at registration |
| Scenarios.NilSkipsValidation | try/try.go:71 | after suppression, the bound chain skips an invalid handler, while the reusable chain rejects it at registration |

## Left out

- Go reflection (`reflect.TypeOf`, `Value.Call`, `Interface().(error)`) is replaced by type
  tags and total handler functions `Error -> Option<Error>`. A handler's `None` is the nil
  that `res[0].IsNil()` (catch/catch.go:64-66, try/try.go:48-50) turns into a nil `error`: a
  nil interface, or a nil pointer returned through a pointer-typed result.
- Typed nil inside an `error` result is not modelled. A `func(error) error` that returns
  `(*MyError)(nil)` yields an interface value that `IsNil` reports as non-nil, so the loop
  continues with a non-nil `error` whose dynamic type is `*MyError`, and later `*MyError`
  handlers match it. `Errors.Error` has no value for a nil pointer of a concrete type.
- A nil handler is not modelled. `Catch(nil)` or `Finally(nil)` makes `reflect.TypeOf` return
  nil, and `fnType.Kind()` (catch/catch.go:78; try/try.go:56 when the held error is non-nil)
  panics with a nil dereference rather than "must be a func". `Dispatch.Handler` always
  carries a type.
- A handler's result is modelled as a function of its argument alone. In Go, handlers are
  closures that may keep state (the tests' handlers update `finCall` and `call`,
  catch/catch_test.go:30 and :79). A handler whose result depends on such state can make
  a second `Try` on the same chain return something different from the first.
- In-place update and aliasing are not modelled. In Go, `block.Catch` and `block.Finally`
  append to the receiver and return the same pointer (catch/catch.go:97-104, 111-118), and
  `try`'s `Catch` assigns `b.err` in place (try/try.go:75). So `base.Catch(a)` followed by
  `base.Catch(b)` gives one chain holding both records, and a `t.Catch(f)` whose result is
  discarded still registers `f` or updates the held error. In the model, chains are values
  that must be threaded from one call to the next, and Go's pointer sharing has no
  counterpart.
- Error types with value receivers are not modelled: every `Errors.Tag` is a pointer type.
  Such a type matters as a handler result. A `func(error) T`, where the struct `T` has a
  value-receiver `Error()` method, passes the result check (catch/catch.go:86-89), but calling
  it panics in `res[0].IsNil()` (catch/catch.go:64, try/try.go:48), because `IsNil` panics on
  a struct value. So `validate` accepts a handler that panics every time it is called.
- Interface types other than `error` and `interface{}` are not modelled. An example is an
  interface that embeds `error`. `Reflect.NonError` stands only for non-interface types
  without an `Error` method, such as `int`. `interface{}` is `Reflect.EmptyInterface`:
  every error can be assigned to it, it does not implement `error`, and so `validate`
  rejects it as a parameter (catch/catch.go:82) even though it would accept every error.
- Panics are `Failure` results, not unwinding. Go's guarantee that deferred finally
  closures still run when a catch handler panics is a runtime feature and is not modelled.
  The model keeps only the finally order and the captured argument.
- `Try(nil)` on a `catch` chain is not modelled, because `Catch.Try` takes an `Error`, which
  is never nil. In Go the outcome depends on the chain. With at least one catch or finally
  record, `match` calls `AssignableTo` on the nil `reflect.Type` of a nil error and panics
  (catch/catch.go:58). With no records at all, the loop at catch/catch.go:136 does not run,
  `runFinally` defers nothing (catch/catch.go:122), and `New().Try(nil)` returns nil without
  panicking. The model expresses neither case.
- Handler side effects (printing, counters) appear only as invocation traces. In `try`, the
  trace survives a panic, so it keeps the handlers that ran before the panic.
- `callIgnore` (catch/catch.go:71-75) has no separate model. A finally invocation is the
  `Call` record itself, and its result is discarded by construction.
- `Try.Error` carries no contract of its own. Its meaning is stated through `Try.New`, and
  it has no side effects because it is a function.
- Concurrent use of one chain is out of scope, as it is in the source.
- test/main.go only prints the results of a few chains and is not part of this model.
