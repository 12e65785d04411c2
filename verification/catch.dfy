/** The `catch` package: a reusable chain.

    Handlers are registered first, with `Catch` and `Finally`; `Try` then
    feeds one error through the whole chain and may be called any number of
    times. `Try` is a function of the chain and the error, so a firing can
    never change the chain that later firings see. */
module Catch {
  import opened Wrappers
  import opened Errors
  import opened Reflect
  import opened Dispatch

  /** The chain: catch records and finally records, each in registration
      order. */
  datatype Block = Block(catchItems: seq<Item>, finallyItems: seq<Item>)

  /** What one firing produces: the returned error (nil when suppressed), the
      catch records invoked and the finally records invoked, each in the order
      of invocation. Every catch invocation happens before every finally
      invocation. */
  datatype Outcome = Outcome(err: Option<Error>, caught: seq<Call>, finalized: seq<Call>)

  /** Every registered record takes a parameter that implements `error`. */
  predicate Valid(b: Block) {
    && (forall i :: 0 <= i < |b.catchItems| ==> Implements(b.catchItems[i].param))
    && (forall i :: 0 <= i < |b.finallyItems| ==> Implements(b.finallyItems[i].param))
  }

  /** `New`: a chain with no records. */
  function New(): (b: Block)
    ensures Valid(b)
    ensures |b.catchItems| == 0 && |b.finallyItems| == 0
  {
    Block([], [])
  }

  /** `Catch`: validate `f` as a catch handler, then append it to the catch
      list. An invalid handler panics before anything is appended. */
  function Catch(b: Block, f: Handler): (r: Result<Block, string>)
    ensures r.Success? <==> Accepts(f.ty, true)
    ensures r.Failure? ==> r == Failure(Validate(f.ty, true).error)
    ensures r.Success? ==>
              && |r.value.catchItems| == |b.catchItems| + 1
              && r.value.catchItems[..|b.catchItems|] == b.catchItems
              && r.value.catchItems[|b.catchItems|].param == f.ty.ins[0]
              && r.value.catchItems[|b.catchItems|].call == f.call
              && r.value.finallyItems == b.finallyItems
    ensures r.Success? && Valid(b) ==> Valid(r.value)
  {
    match Validate(f.ty, true)
    case Failure(msg) => Failure(msg)
    case Success(param) => Success(b.(catchItems := b.catchItems + [ItemOf(f, param)]))
  }

  /** `Finally`: validate `f` as a finally handler (its results are not
      checked), then append it to the finally list. */
  function Finally(b: Block, f: Handler): (r: Result<Block, string>)
    ensures r.Success? <==> Accepts(f.ty, false)
    ensures r.Failure? ==> r == Failure(Validate(f.ty, false).error)
    ensures r.Success? ==>
              && |r.value.finallyItems| == |b.finallyItems| + 1
              && r.value.finallyItems[..|b.finallyItems|] == b.finallyItems
              && r.value.finallyItems[|b.finallyItems|].param == f.ty.ins[0]
              && r.value.finallyItems[|b.finallyItems|].call == f.call
              && r.value.catchItems == b.catchItems
    ensures r.Success? && Valid(b) ==> Valid(r.value)
  {
    match Validate(f.ty, false)
    case Failure(msg) => Failure(msg)
    case Success(param) => Success(b.(finallyItems := b.finallyItems + [ItemOf(f, param)]))
  }

  /** `New().Catch(hs[0])...Catch(hs[|hs|-1])` applied to `b`: stops at the
      first handler that fails validation. */
  function CatchAll(b: Block, hs: seq<Handler>): (r: Result<Block, string>)
    ensures r.Success? <==> forall i :: 0 <= i < |hs| ==> Accepts(hs[i].ty, true)
    // the panic is the validation message of the first invalid handler
    ensures r.Failure? ==> FirstInvalid(hs, 0) < |hs| && r.error == Validate(hs[FirstInvalid(hs, 0)].ty, true).error
    ensures r.Success? ==>
              && |r.value.catchItems| == |b.catchItems| + |hs|
              && r.value.catchItems[..|b.catchItems|] == b.catchItems
              && r.value.finallyItems == b.finallyItems
              && (Valid(b) ==> Valid(r.value))
              && forall i :: 0 <= i < |hs| ==>
                   && r.value.catchItems[|b.catchItems| + i].param == hs[i].ty.ins[0]
                   && r.value.catchItems[|b.catchItems| + i].call == hs[i].call
    decreases |hs|
  {
    if |hs| == 0 then Success(b)
    else
      match Catch(b, hs[0])
      case Failure(msg) => Failure(msg)
      case Success(b') =>
        match CatchAll(b', hs[1..])
        case Failure(msg) =>
          FirstInvalidTail(hs, 0);
          Failure(msg)
        case Success(last) =>
          assert forall i :: 1 <= i < |hs| ==> hs[1..][i - 1] == hs[i];
          Success(last)
  }

  /** Some error value may be passed to a parameter of type `p`. */
  ghost predicate CanFire(p: GoType) {
    exists e :: Match(e, p)
  }

  /** A parameter type accepts some error value exactly when it implements
      `error` or is the empty interface. The empty interface accepts every
      error but does not implement `error`, so `validate` rejects it. */
  lemma CanFireIffImplementsOrEmpty(p: GoType)
    ensures CanFire(p) <==> Implements(p) || p.EmptyInterface?
  {
    if Implements(p) || p.EmptyInterface? {
      var e := if p.Concrete? then Sample(p.tag) else ErrorString("");
      assert Match(e, p);
    }
  }

  /** What validation guarantees about a chain: every registered record fires
      for some error. `Valid` holds exactly when every record can fire and
      none takes the empty interface, the one parameter type that can fire
      but that `validate` rejects. */
  lemma ValidRecordsCanFire(b: Block)
    ensures Valid(b) ==>
              && (forall i :: 0 <= i < |b.catchItems| ==> CanFire(b.catchItems[i].param))
              && (forall i :: 0 <= i < |b.finallyItems| ==> CanFire(b.finallyItems[i].param))
    ensures Valid(b) <==>
              && (forall i :: 0 <= i < |b.catchItems| ==>
                    CanFire(b.catchItems[i].param) && !b.catchItems[i].param.EmptyInterface?)
              && (forall i :: 0 <= i < |b.finallyItems| ==>
                    CanFire(b.finallyItems[i].param) && !b.finallyItems[i].param.EmptyInterface?)
  {
    forall i | 0 <= i < |b.catchItems|
      ensures CanFire(b.catchItems[i].param) <==> Implements(b.catchItems[i].param) || b.catchItems[i].param.EmptyInterface?
    {
      CanFireIffImplementsOrEmpty(b.catchItems[i].param);
    }
    forall i | 0 <= i < |b.finallyItems|
      ensures CanFire(b.finallyItems[i].param) <==> Implements(b.finallyItems[i].param) || b.finallyItems[i].param.EmptyInterface?
    {
      CanFireIffImplementsOrEmpty(b.finallyItems[i].param);
    }
  }

  function Last(calls: seq<Call>): Call
    requires |calls| > 0
  {
    calls[|calls| - 1]
  }

  /** The catch loop of `Try` from record `i` on, with `cur` the current
      error: a matching record is invoked and its result replaces the error;
      a nil result breaks the loop. */
  function RunCatch(items: seq<Item>, i: nat, cur: Error): (r: Pass)
    requires i <= |items|
    // records are invoked in registration order, each at most once
    ensures forall k :: 0 <= k < |r.calls| ==> i <= r.calls[k].index < |items|
    ensures forall k, l :: 0 <= k < l < |r.calls| ==> r.calls[k].index < r.calls[l].index
    // only matching records are invoked
    ensures forall k :: 0 <= k < |r.calls| ==> Match(r.calls[k].arg, items[r.calls[k].index].param)
    decreases |items| - i
  {
    if i == |items| then Pass(Some(cur), [])
    else if Match(cur, items[i].param) then
      match items[i].call(cur)
      case None => Pass(None, [Call(i, cur)])
      case Some(next) =>
        var rest := RunCatch(items, i + 1, next);
        Pass(rest.err, [Call(i, cur)] + rest.calls)
    else RunCatch(items, i + 1, cur)
  }

  /** The first invoked record sees the input, and the loop returns the last
      invoked record's result, or the input when no record was invoked. */
  lemma {:induction false} RunCatchEnds(items: seq<Item>, i: nat, cur: Error)
    requires i <= |items|
    ensures var r := RunCatch(items, i, cur);
            |r.calls| == 0 ==> r.err == Some(cur)
    ensures var r := RunCatch(items, i, cur);
            |r.calls| > 0 ==> r.calls[0].arg == cur && r.err == items[Last(r.calls).index].call(Last(r.calls).arg)
    decreases |items| - i
  {
    if i < |items| {
      if Match(cur, items[i].param) {
        match items[i].call(cur)
        case None =>
        case Some(next) =>
          RunCatchEnds(items, i + 1, next);
          var rest := RunCatch(items, i + 1, next);
          assert RunCatch(items, i, cur) == Pass(rest.err, [Call(i, cur)] + rest.calls);
          assert |rest.calls| > 0 ==> Last([Call(i, cur)] + rest.calls) == Last(rest.calls);
      } else {
        assert RunCatch(items, i, cur) == RunCatch(items, i + 1, cur);
        RunCatchEnds(items, i + 1, cur);
      }
    }
  }

  /** Each call in `calls` after the first is given the result of the call
      before it. */
  ghost predicate Linked(items: seq<Item>, calls: seq<Call>) {
    forall k :: 0 <= k < |calls| - 1 ==>
      calls[k].index < |items| && items[calls[k].index].call(calls[k].arg) == Some(calls[k + 1].arg)
  }

  /** Only the last call in `calls` may have returned nil. */
  ghost predicate NilOnlyLast(items: seq<Item>, calls: seq<Call>) {
    forall k :: 0 <= k < |calls| && calls[k].index < |items| && items[calls[k].index].call(calls[k].arg).None? ==>
      k == |calls| - 1
  }

  /** Each invoked record after the first is given its predecessor's result. */
  lemma {:induction false} RunCatchLinks(items: seq<Item>, i: nat, cur: Error)
    requires i <= |items|
    ensures Linked(items, RunCatch(items, i, cur).calls)
    decreases |items| - i
  {
    if i < |items| {
      if Match(cur, items[i].param) {
        match items[i].call(cur)
        case None =>
        case Some(next) =>
          RunCatchLinks(items, i + 1, next);
          RunCatchEnds(items, i + 1, next);
          var rest := RunCatch(items, i + 1, next).calls;
          var all := [Call(i, cur)] + rest;
          assert RunCatch(items, i, cur).calls == all;
          forall k | 0 <= k < |all| - 1
            ensures all[k].index < |items| && items[all[k].index].call(all[k].arg) == Some(all[k + 1].arg)
          {
            assert all[k + 1] == rest[k];
            if k > 0 {
              assert all[k] == rest[k - 1];
              assert Linked(items, rest);
            }
          }
      } else {
        assert RunCatch(items, i, cur) == RunCatch(items, i + 1, cur);
        RunCatchLinks(items, i + 1, cur);
      }
    }
  }

  /** A record that returns nil is the last one the loop invokes. */
  lemma {:induction false} RunCatchBreaks(items: seq<Item>, i: nat, cur: Error)
    requires i <= |items|
    ensures NilOnlyLast(items, RunCatch(items, i, cur).calls)
    decreases |items| - i
  {
    if i < |items| {
      if Match(cur, items[i].param) {
        match items[i].call(cur)
        case None =>
        case Some(next) =>
          RunCatchBreaks(items, i + 1, next);
          var rest := RunCatch(items, i + 1, next).calls;
          var all := [Call(i, cur)] + rest;
          assert RunCatch(items, i, cur).calls == all;
          forall k | 0 <= k < |all| && items[all[k].index].call(all[k].arg).None?
            ensures k == |all| - 1
          {
            assert k != 0;
            assert all[k] == rest[k - 1];
            assert items[rest[k - 1].index].call(rest[k - 1].arg).None?;
            assert NilOnlyLast(items, rest);
          }
      } else {
        assert RunCatch(items, i, cur) == RunCatch(items, i + 1, cur);
        RunCatchBreaks(items, i + 1, cur);
      }
    }
  }

  /** The loop with `break` computes the reference fold. */
  lemma {:induction false} RunCatchIsFold(items: seq<Item>, i: nat, cur: Error)
    requires i <= |items|
    ensures RunCatch(items, i, cur).err == Fold(items[i..], Some(cur))
    decreases |items| - i
  {
    if i < |items| {
      FoldSlice(items, i, |items|, Some(cur));
      assert items[i..] == items[i..|items|];
      assert items[i + 1..] == items[i + 1..|items|];
      if Match(cur, items[i].param) {
        match items[i].call(cur)
        case None =>
          FoldNil(items[i + 1..]);
        case Some(next) =>
          RunCatchIsFold(items, i + 1, next);
      } else {
        RunCatchIsFold(items, i + 1, cur);
      }
    }
  }

  /** The loop invokes record `c.index` with `c.arg` exactly when that record
      is reached with `c.arg` as the current error and accepts it. */
  lemma {:induction false} RunCatchInvokes(items: seq<Item>, i: nat, cur: Error, c: Call)
    requires i <= |items|
    ensures c in RunCatch(items, i, cur).calls <==>
              && i <= c.index < |items|
              && Fold(items[i..c.index], Some(cur)) == Some(c.arg)
              && Match(c.arg, items[c.index].param)
    decreases |items| - i
  {
    if i < |items| && i <= c.index < |items| {
      if c.index == i {
        assert items[i..c.index] == [];
      } else {
        FoldSlice(items, i, c.index, Some(cur));
        if Match(cur, items[i].param) {
          match items[i].call(cur)
          case None =>
            FoldNil(items[i + 1..c.index]);
          case Some(next) =>
            RunCatchInvokes(items, i + 1, next, c);
        } else {
          RunCatchInvokes(items, i + 1, cur, c);
        }
      }
    }
  }

  /** `RunCatchInvokes` for the whole loop, over prefixes of the list. */
  lemma RunCatchInvokesFromStart(items: seq<Item>, err: Error)
    ensures forall c :: c in RunCatch(items, 0, err).calls <==>
              && c.index < |items|
              && Fold(items[..c.index], Some(err)) == Some(c.arg)
              && Match(c.arg, items[c.index].param)
  {
    forall c
      ensures c in RunCatch(items, 0, err).calls <==>
                && c.index < |items|
                && Fold(items[..c.index], Some(err)) == Some(c.arg)
                && Match(c.arg, items[c.index].param)
    {
      RunCatchInvokes(items, 0, err, c);
      if c.index < |items| {
        assert items[0..c.index] == items[..c.index];
      }
    }
  }

  /** `runFinally(err)` with the first `n` finally records: the loop defers one
      closure per record in registration order, and the deferred closures run
      last-in first-out, each testing the `err` it captured. */
  function RunFinally(items: seq<Item>, err: Error, n: nat): (r: seq<Call>)
    requires n <= |items|
    ensures forall k :: 0 <= k < |r| ==> r[k].index < n && r[k].arg == err
    ensures forall k, l :: 0 <= k < l < |r| ==> r[k].index > r[l].index
    ensures forall j :: 0 <= j < n ==> (Call(j, err) in r <==> Match(err, items[j].param))
  {
    if n == 0 then []
    else
      (if Match(err, items[n - 1].param) then [Call(n - 1, err)] else [])
      + RunFinally(items, err, n - 1)
  }

  /** `Try(err)`: the catch loop, then the finally records. `defer
      b.runFinally(err)` evaluates its argument before the loop, so every
      finally record is gated on, and given, the input error, not the
      error the catch loop returns. */
  function Try(b: Block, err: Error): (r: Outcome)
    // the returned error is the catch records applied in registration order
    ensures r.err == Fold(b.catchItems, Some(err))
    // catch records: in registration order, exactly those matching the error current when reached
    ensures forall k, l :: 0 <= k < l < |r.caught| ==> r.caught[k].index < r.caught[l].index
    ensures forall c :: c in r.caught <==>
              && c.index < |b.catchItems|
              && Fold(b.catchItems[..c.index], Some(err)) == Some(c.arg)
              && Match(c.arg, b.catchItems[c.index].param)
    // each invoked catch record receives its predecessor's result; a nil result ends the loop
    ensures |r.caught| > 0 ==> r.caught[0].arg == err
    ensures forall k :: 0 <= k < |r.caught| - 1 ==>
              b.catchItems[r.caught[k].index].call(r.caught[k].arg) == Some(r.caught[k + 1].arg)
    ensures forall k :: 0 <= k < |r.caught| && b.catchItems[r.caught[k].index].call(r.caught[k].arg).None? ==>
              k == |r.caught| - 1 && r.err == None
    ensures |r.caught| == 0 ==> r.err == Some(err)
    ensures |r.caught| > 0 ==> r.err == b.catchItems[Last(r.caught).index].call(Last(r.caught).arg)
    // finally records: every one evaluated once, in reverse order, gated on the input error
    ensures forall k, l :: 0 <= k < l < |r.finalized| ==> r.finalized[k].index > r.finalized[l].index
    ensures forall k :: 0 <= k < |r.finalized| ==>
              r.finalized[k].index < |b.finallyItems| && r.finalized[k].arg == err
    ensures forall j :: 0 <= j < |b.finallyItems| ==>
              (Call(j, err) in r.finalized <==> Match(err, b.finallyItems[j].param))
  {
    var Pass(res, caught) := RunCatch(b.catchItems, 0, err);
    RunCatchIsFold(b.catchItems, 0, err);
    RunCatchEnds(b.catchItems, 0, err);
    RunCatchLinks(b.catchItems, 0, err);
    RunCatchBreaks(b.catchItems, 0, err);
    RunCatchInvokesFromStart(b.catchItems, err);
    assert b.catchItems[0..] == b.catchItems;
    Outcome(res, caught, RunFinally(b.finallyItems, err, |b.finallyItems|))
  }

  /** When no catch record accepts the input, nothing is invoked and the input
      is returned. */
  lemma NoMatchReturnsInput(b: Block, err: Error)
    requires forall i :: 0 <= i < |b.catchItems| ==> !Match(err, b.catchItems[i].param)
    ensures Try(b, err).err == Some(err)
    ensures Try(b, err).caught == []
  {
  }
}
