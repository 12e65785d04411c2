/** The fragment of Go's type system that the handler checks consult.

    A handler is registered as an `interface{}`; the library inspects its
    dynamic type with `reflect` to decide whether it is a function, how many
    parameters and results it has, whether those implement `error`, and
    whether a given error can be passed to it. */
module Reflect {
  import opened Errors

  /** A Go type as it may appear in a handler signature. */
  datatype GoType =
    | ErrorInterface        // the `error` interface itself
    | Concrete(tag: Tag)    // the pointer type of one of the error variants
    | EmptyInterface        // `interface{}`: every value is assignable to it, and it has no `Error` method
    | NonError(name: string) // a non-interface type without an `Error() string` method: int, string, ...

  /** The dynamic type of a registered handler value `f`. */
  datatype FuncType =
    | NotFunc                                         // Kind() != reflect.Func
    | Func(ins: seq<GoType>, outs: seq<GoType>)

  /** `t.Implements(errSample)`: does `t` have the method set of `error`? */
  predicate Implements(t: GoType) {
    t.ErrorInterface? || t.Concrete?
  }

  /** `v.AssignableTo(t)` for the types of this model: identical types, any
      type to the empty interface, or `t` is the error interface and `v`
      implements it. */
  predicate AssignableTo(v: GoType, t: GoType) {
    v == t || t.EmptyInterface? || (t.ErrorInterface? && Implements(v))
  }

  /** `reflect.TypeOf(e)` for a non-nil error value. */
  function TypeOf(e: Error): (t: GoType)
    ensures Implements(t) && !t.ErrorInterface?
  {
    Concrete(TagOf(e))
  }
}
