/** What both packages share: handler records, their validation, the type
    match that gates a record, and one step of catch-style application.

    `Fold` is the reference meaning of a catch list: apply the records one
    after another, where a suppressed (nil) error stays suppressed. */
module Dispatch {
  import opened Wrappers
  import opened Errors
  import opened Reflect

  /** A value passed to `Catch` or `Finally`: its dynamic type and, when it is
      a function, what calling it returns. A finally handler's result is
      ignored. Side effects of handlers are not modelled; invocations are
      recorded as `Call`s instead. */
  datatype Handler = Handler(ty: FuncType, call: Error -> Option<Error>)

  /** A registered record: the type of the function's single parameter and
      the function itself. */
  datatype Item = Item(param: GoType, call: Error -> Option<Error>)

  /** One invocation of a record: its position in its list and the error it
      was given. */
  datatype Call = Call(index: nat, arg: Error)

  /** What a run of catch records produces: the error it ends with (nil when
      suppressed) and the records it invoked, in the order of invocation. */
  datatype Pass = Pass(err: Option<Error>, calls: seq<Call>)

  const MustBeFunc := "must be a func"
  const MustTakeOneError := "must get exactly one argument and argument must implement error interface"
  const MustReturnOneError := "must have exactly one result and result must implement error interface"

  /** The shape a handler must have: a function of exactly one parameter
      implementing `error`, and, when `ret` holds, exactly one result
      implementing `error`. */
  predicate Accepts(ty: FuncType, ret: bool) {
    && ty.Func?
    && |ty.ins| == 1 && Implements(ty.ins[0])
    && (ret ==> |ty.outs| == 1 && Implements(ty.outs[0]))
  }

  /** `validate(fnType, ret)`: the three checks in order, each failing with its
      own panic message. On success the parameter type is returned. */
  function Validate(ty: FuncType, ret: bool): (r: Result<GoType, string>)
    ensures r.Success? <==> Accepts(ty, ret)
    ensures r.Success? ==> r.value == ty.ins[0] && Implements(r.value)
    ensures !ty.Func? ==> r == Failure(MustBeFunc)
    ensures ty.Func? && (|ty.ins| != 1 || !Implements(ty.ins[0])) ==> r == Failure(MustTakeOneError)
    ensures (ty.Func? && |ty.ins| == 1 && Implements(ty.ins[0]) && !Accepts(ty, ret)) ==>
              ret && r == Failure(MustReturnOneError)
  {
    if !ty.Func? then Failure(MustBeFunc)
    else if |ty.ins| != 1 || !Implements(ty.ins[0]) then Failure(MustTakeOneError)
    else if ret && (|ty.outs| != 1 || !Implements(ty.outs[0])) then Failure(MustReturnOneError)
    else Success(ty.ins[0])
  }

  /** The position of the first handler from `i` on that fails validation as
      a catch handler, or `|hs|` when every one of them passes. */
  function FirstInvalid(hs: seq<Handler>, i: nat): (k: nat)
    requires i <= |hs|
    ensures i <= k <= |hs|
    ensures forall m :: i <= m < k ==> Accepts(hs[m].ty, true)
    ensures k < |hs| ==> !Accepts(hs[k].ty, true)
    decreases |hs| - i
  {
    if i == |hs| || !Accepts(hs[i].ty, true) then i else FirstInvalid(hs, i + 1)
  }

  /** Dropping the first handler moves the first invalid position down by
      one. */
  lemma {:induction false} FirstInvalidTail(hs: seq<Handler>, i: nat)
    requires i < |hs|
    ensures FirstInvalid(hs, i + 1) == 1 + FirstInvalid(hs[1..], i)
    decreases |hs| - i
  {
    if i + 1 < |hs| {
      assert hs[1..][i] == hs[i + 1];
      if Accepts(hs[i + 1].ty, true) {
        FirstInvalidTail(hs, i + 1);
      }
    }
  }

  /** The record that registering a validated handler creates. */
  function ItemOf(h: Handler, param: GoType): Item {
    Item(param, h.call)
  }

  /** `match`: may `e` be passed to a function whose parameter type is
      `param`? Assignability of the dynamic type, never a test on the value. */
  predicate Match(e: Error, param: GoType)
    ensures Match(e, param) <==> param == ErrorInterface || param == EmptyInterface || param == Concrete(TagOf(e))
  {
    AssignableTo(TypeOf(e), param)
  }

  /** One catch record applied to the current error: nothing happens once the
      error is nil or when the record does not match; otherwise the record's
      result, possibly nil, becomes the current error. */
  function Step(item: Item, cur: Option<Error>): Option<Error> {
    match cur
    case None => None
    case Some(e) => if Match(e, item.param) then item.call(e) else cur
  }

  /** The catch records applied in registration order. */
  function Fold(items: seq<Item>, cur: Option<Error>): Option<Error> {
    if |items| == 0 then cur else Fold(items[1..], Step(items[0], cur))
  }

  /** A nil error passes through any list of catch records untouched. */
  lemma {:induction false} FoldNil(items: seq<Item>)
    ensures Fold(items, None) == None
  {
    if |items| > 0 {
      FoldNil(items[1..]);
    }
  }

  /** When no record matches the input, the chain returns the input. */
  lemma {:induction false} FoldNoMatch(items: seq<Item>, e: Error)
    requires forall i :: 0 <= i < |items| ==> !Match(e, items[i].param)
    ensures Fold(items, Some(e)) == Some(e)
  {
    if |items| > 0 {
      FoldNoMatch(items[1..], e);
    }
  }

  /** Dropping the first record of a non-empty slice is one `Step`. */
  lemma FoldSlice(items: seq<Item>, i: nat, j: nat, cur: Option<Error>)
    requires i < j <= |items|
    ensures Fold(items[i..j], cur) == Fold(items[i + 1..j], Step(items[i], cur))
  {
    assert items[i..j][1..] == items[i + 1..j];
  }
}
