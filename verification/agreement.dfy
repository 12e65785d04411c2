/** The two packages implement one mechanism: for a non-nil error and valid
    handlers, the bound chain ends with the error that firing the reusable
    chain returns, and it invokes the same handlers with the same errors. */
module Agreement {
  import opened Wrappers
  import opened Errors
  import opened Dispatch
  import Catch
  import Try

  /** The records `items` are the handlers `hs` once registered. */
  ghost predicate Registered(items: seq<Item>, hs: seq<Handler>) {
    && |items| == |hs|
    && forall k :: 0 <= k < |hs| ==>
         && Accepts(hs[k].ty, true)
         && items[k].param == hs[k].ty.ins[0]
         && items[k].call == hs[k].call
  }

  /** From position `i` on, chaining the handlers onto a bound error `cur`
      does what the catch loop of `Try` does from record `i` with `cur`. */
  lemma {:induction false} StepsAgree(items: seq<Item>, hs: seq<Handler>, i: nat, cur: Error)
    requires Registered(items, hs) && i <= |hs|
    ensures Try.CatchAll(Try.Bound(Some(cur)), hs, i)
            == Try.Chained(Catch.RunCatch(items, i, cur).calls, Success(Try.Bound(Catch.RunCatch(items, i, cur).err)))
    decreases |hs| - i
  {
    if i < |hs| {
      if Match(cur, hs[i].ty.ins[0]) {
        match hs[i].call(cur)
        case None =>
          assert Try.Catch(Try.Bound(Some(cur)), hs[i]) == Success(Try.Bound(None));
          assert Try.CatchAll(Try.Bound(None), hs, i + 1) == Try.Chained([], Success(Try.Bound(None)));
          assert [Call(i, cur)] + [] == [Call(i, cur)];
        case Some(next) =>
          StepsAgree(items, hs, i + 1, next);
      } else {
        assert Try.Catch(Try.Bound(Some(cur)), hs[i]) == Success(Try.Bound(Some(cur)));
        StepsAgree(items, hs, i + 1, cur);
        var rest := Catch.RunCatch(items, i + 1, cur).calls;
        assert [] + rest == rest;
      }
    }
  }

  /** `try.New(e).Catch(h1)...Catch(hn).Error()` equals
      `catch.New().Catch(h1)...Catch(hn).Try(e)`, and both invoke the same
      handlers in the same order with the same arguments. */
  lemma {:induction false} VariantsAgree(e: Error, hs: seq<Handler>)
    requires forall k :: 0 <= k < |hs| ==> Accepts(hs[k].ty, true)
    ensures Catch.CatchAll(Catch.New(), hs).Success?
    ensures var o := Catch.Try(Catch.CatchAll(Catch.New(), hs).value, e);
            Try.CatchAll(Try.New(Some(e)), hs, 0) == Try.Chained(o.caught, Success(Try.Bound(o.err)))
  {
    RegisterAll(hs);
    var blk := Catch.CatchAll(Catch.New(), hs).value;
    StepsAgree(blk.catchItems, hs, 0, e);
    assert Catch.Try(blk, e).err == Catch.RunCatch(blk.catchItems, 0, e).err;
    assert Catch.Try(blk, e).caught == Catch.RunCatch(blk.catchItems, 0, e).calls;
  }

  /** Registering valid handlers on a new reusable chain gives their records. */
  lemma RegisterAll(hs: seq<Handler>)
    requires forall k :: 0 <= k < |hs| ==> Accepts(hs[k].ty, true)
    ensures Catch.CatchAll(Catch.New(), hs).Success?
    ensures Registered(Catch.CatchAll(Catch.New(), hs).value.catchItems, hs)
  {
  }
}
