/**
 * The closure object of lambdaj: the recorded invocation ledger, updated in
 * place while the closure is being built, and the bind-and-replay loops that
 * invoke it. Each method is proved against the definitions in ClosureSpec.
 */
module Closures {
  import opened ClosureSpec

  /** The registration loop: overwrites each argument that IsBoundParam
      rejects with null, in place, and counts them. */
  method NullUnbound(args: array<Value>) returns (freed: nat)
    modifies args
    ensures args[..] == Classify(old(args[..]))
    ensures freed == CountUnbound(old(args[..]))
  {
    ghost var orig := args[..];
    freed := 0;
    for i := 0 to args.Length
      invariant forall k :: 0 <= k < i ==> args[k] == Kept(orig[k])
      invariant forall k :: i <= k < args.Length ==> args[k] == orig[k]
      invariant freed == CountUnbound(orig[..i])
    {
      CountUnboundStep(orig, i);
      assert args[i] == orig[i];
      if !IsBoundParam(args[i]) {
        args[i] := Null;
        freed := freed + 1;
      }
      assert args[i] == Kept(orig[i]);
    }
    assert orig == orig[..args.Length];
    forall k | 0 <= k < args.Length ensures args[k] == Classify(orig)[k] {
      ClassifyAt(orig, k);
    }
    assert args[..] == Classify(orig);
  }

  /** One round of the zipped walk: every iterator, in order, yields its
      next element, unless one of them has none left. */
  method NextParamSet(iterables: seq<seq<Value>>, positions: array<nat>, ghost k: nat)
    returns (paramSet: array<Value>, finished: bool)
    requires |iterables| >= 1 && positions.Length == |iterables|
    requires forall i :: 0 <= i < positions.Length ==> positions[i] == k
    requires k <= MinLength(iterables)
    modifies positions
    ensures fresh(paramSet)
    ensures finished <==> k == MinLength(iterables)
    ensures !finished ==> paramSet[..] == Column(iterables, k)
    ensures !finished ==> forall i :: 0 <= i < positions.Length ==> positions[i] == k + 1
  {
    var length := |iterables|;
    paramSet := new Value[length];
    finished := false;
    for i := 0 to length
      invariant forall j :: 0 <= j < i ==> positions[j] == k + 1 && k < |iterables[j]| && paramSet[j] == iterables[j][k]
      invariant forall j :: i <= j < length ==> positions[j] == k
    {
      if positions[i] >= |iterables[i]| {
        finished := true;
        assert k >= |iterables[i]|;
        return;
      }
      paramSet[i] := iterables[i][positions[i]];
      positions[i] := positions[i] + 1;
    }
    assert k < MinLength(iterables);
    assert paramSet[..] == Column(iterables, k);
  }

  /** Copies one recorded argument array into a fresh array, taking the
      parameter at the shared counter for each free slot. */
  method FillArgs(slots: seq<Value>, params: seq<Value>, start: nat) returns (objs: array<Value>, paramCounter: nat)
    requires start + FreeSlots(slots) <= |params|
    ensures fresh(objs)
    ensures paramCounter == start + FreeSlots(slots)
    ensures objs[..] == Fill(slots, params[start..paramCounter])
  {
    paramCounter := start;
    objs := new Value[|slots|];
    for i := 0 to |slots|
      invariant paramCounter == start + FreeSlots(slots[..i]) <= start + FreeSlots(slots)
      invariant objs[..i] == Fill(slots[..i], params[start..paramCounter])
    {
      var next := if slots[i] == Null then paramCounter + 1 else paramCounter;
      assert next == start + FreeSlots(slots[..i + 1]) <= start + FreeSlots(slots) by {
        FreeSlotsStep(slots, i);
        FreeSlotsPrefix(slots, i + 1);
      }
      ghost var done := objs[..i];
      objs[i] := if slots[i] != Null then slots[i] else params[paramCounter];
      assert objs[..i + 1] == Fill(slots[..i + 1], params[start..next]) by {
        assert objs[..i + 1] == done + [objs[i]];
        FillStep(slots, params, start, paramCounter, i);
      }
      paramCounter := next;
    }
    assert slots[..|slots|] == slots && objs[..] == objs[..|slots|];
  }

  /** The replay loop of closeOne: invokes each recorded step on the running
      result, stopping at a null result or at the first invocation that throws. */
  method ReplaySteps(methods: seq<MethodId>, bound: Option<seq<Args>>, receiver: Value, invoke: Invoker)
    returns (r: Outcome<Value>, calls: seq<Call>)
    requires bound.Some? ==> |bound.value| == |methods|
    ensures Run(r, calls) == Replay(methods, bound, 0, receiver, invoke)
  {
    var result := receiver;
    calls := [];
    for k := 0 to |methods|
      invariant ReplayedUpTo(methods, bound, receiver, invoke, k, result, calls)
    {
      if result == Null {
        ReplayStopNull(methods, bound, receiver, invoke, k, calls);
        return Ok(Null), calls;
      }
      var args := if bound != None then bound.value[k] else None;
      match invoke(methods[k], result, args)
      case Threw(cause) =>
        ReplayStopThrew(methods, bound, receiver, invoke, k, result, calls, cause);
        return Err(InvocationFailure(methods[k], result, cause)), calls + [Call(methods[k], result, args)];
      case Returned(v) =>
        ReplayAdvance(methods, bound, receiver, invoke, k, result, calls, v);
        calls := calls + [Call(methods[k], result, args)];
        result := v;
    }
    assert calls + [] == calls;
    r := Ok(result);
  }

  class AbstractClosure {
    /** The target the recorded chain is replayed on. */
    var closed: Value
    /** One recorded method per step. */
    var methodList: seq<MethodId>
    /** One argument entry per step, parallel to methodList. */
    var argsList: seq<Args>
    /** Free argument slots recorded so far. */
    var unboundParamsCount: nat

    /** The closure's state as a value. */
    function State(): Ledger
      reads this
    {
      Ledger(closed, methodList, argsList, unboundParamsCount)
    }

    ghost predicate Valid()
      reads this
    {
      State().WellFormed()
    }

    constructor ()
      ensures Valid()
      ensures closed == Null && methodList == [] && argsList == [] && unboundParamsCount == 0
    {
      closed := Null;
      methodList := [];
      argsList := [];
      unboundParamsCount := 0;
    }

    method SetClosed(target: Value)
      requires Valid()
      modifies this`closed
      ensures Valid()
      ensures closed == target
    {
      closed := target;
    }

    /** Appends one step. Every argument that IsBoundParam rejects is
        overwritten with null in the caller's array and counted as free; a
        null or empty array is recorded as a null entry. */
    method RegisterInvocation(m: MethodId, args: array?<Value>)
      requires Valid()
      modifies this, args
      ensures Valid()
      ensures closed == old(closed)
      ensures methodList == old(methodList) + [m]
      ensures args == null || args.Length == 0 ==>
        argsList == old(argsList) + [None] && unboundParamsCount == old(unboundParamsCount)
      ensures args != null && args.Length > 0 ==>
        && args[..] == Classify(old(args[..]))
        && argsList == old(argsList) + [Some(args[..])]
        && unboundParamsCount == old(unboundParamsCount) + CountUnbound(old(args[..]))
    {
      ghost var before := State();
      methodList := methodList + [m];
      if args == null || args.Length == 0 {
        AppendWellFormed(before, m, None);
        argsList := argsList + [None];
      } else {
        var freed := NullUnbound(args);
        unboundParamsCount := unboundParamsCount + freed;
        AppendWellFormed(before, m, Some(args[..]));
        argsList := argsList + [Some(args[..])];
      }
    }

    /** Checks the number of parameters against the free slots, then builds
        fresh per-step argument arrays whose free slots take the parameters
        in recorded order. */
    method BindParams(params: seq<Value>) returns (r: Outcome<Option<seq<Args>>>)
      requires Valid()
      ensures r.Err? <==> |params| != unboundParamsCount
      ensures r.Err? ==> r.error == ParamCountMismatch(unboundParamsCount, |params|)
      ensures r == Ok(None) <==> |params| == 0 && unboundParamsCount == 0
      ensures r == BoundArgs(State(), params)
    {
      if |params| == 0 {
        if unboundParamsCount == 0 {
          return Ok(None);
        }
        return Err(ParamCountMismatch(unboundParamsCount, 0));
      }
      if unboundParamsCount != |params| {
        return Err(ParamCountMismatch(unboundParamsCount, |params|));
      }
      var paramCounter := 0;
      var boundParams: seq<Args> := [];
      for j := 0 to |argsList|
        invariant paramCounter == TotalFreeSlots(argsList[..j])
        invariant paramCounter <= |params|
        invariant boundParams == Bind(argsList[..j], params[..paramCounter])
      {
        TotalFreeSlotsPrefix(argsList, j);
        var args := argsList[j];
        ghost var start := paramCounter;
        if args.None? {
          boundParams := boundParams + [None];
        } else {
          var objs;
          objs, paramCounter := FillArgs(args.value, params, paramCounter);
          boundParams := boundParams + [Some(objs[..])];
        }
        BindStep(argsList, params, j, start, paramCounter);
      }
      assert argsList[..|argsList|] == argsList;
      assert params[..paramCounter] == params;
      return Ok(Some(boundParams));
    }

    /** One closure invocation: binds the parameters (an arity error invokes
        nothing), then replays every step on the running result, returning
        null as soon as it is null and wrapping an invocation failure. */
    method CloseOne(params: seq<Value>, invoke: Invoker) returns (r: Outcome<Value>, calls: seq<Call>)
      requires Valid()
      ensures |params| != unboundParamsCount ==>
        r == Err(ParamCountMismatch(unboundParamsCount, |params|)) && calls == []
      ensures methodList == [] && |params| == unboundParamsCount ==> r == Ok(closed) && calls == []
      ensures Run(r, calls) == CloseOneSpec(State(), params, invoke)
    {
      var b := BindParams(params);
      if b.Err? {
        return Err(b.error), [];
      }
      r, calls := ReplaySteps(methodList, b.value, closed, invoke);
    }

    /** closeOne on each parameter in turn, collecting the results. */
    method CloseAll(params: seq<Value>, invoke: Invoker) returns (r: Outcome<seq<Value>>, calls: seq<Call>)
      requires Valid()
      ensures r.Ok? ==> |r.value| == |params|
      ensures r.Ok? ==> forall i :: 0 <= i < |params| ==> CloseOneSpec(State(), [params[i]], invoke).outcome == Ok(r.value[i])
      ensures r.Err? ==>
        exists i :: 0 <= i < |params| && CloseOneSpec(State(), [params[i]], invoke).outcome == Err(r.error)
          && forall j :: 0 <= j < i ==> CloseOneSpec(State(), [params[j]], invoke).outcome.Ok?
      ensures RunAll(r, calls) == CloseAllSpec(State(), Singletons(params), invoke)
    {
      ghost var rows := Singletons(params);
      var results: seq<Value> := [];
      calls := [];
      r := Ok(results);
      for i := 0 to |params|
        invariant r == Ok(results)
        invariant RunAll(r, calls) == CloseAllSpec(State(), rows[..i], invoke)
      {
        var o, c := CloseOne([params[i]], invoke);
        assert rows[i] == [params[i]];
        if o.Err? {
          CloseAllFail(State(), rows, invoke, i, results, calls, o.error, c);
          r, calls := Err(o.error), calls + c;
          break;
        }
        CloseAllAdvance(State(), rows, invoke, i, results, calls, o.value, c);
        results, calls := results + [o.value], calls + c;
        r := Ok(results);
      }
      assert rows[..|params|] == rows;
      CloseAllScalarMeaning(State(), params, invoke);
    }

    /** closeOne on parallel elements of several sequences, walked together
        until the first of them runs out. */
    method CloseAllZip(iterables: seq<seq<Value>>, invoke: Invoker) returns (r: Outcome<seq<Value>>, calls: seq<Call>)
      requires Valid()
      requires |iterables| >= 1
      ensures r.Ok? ==> |r.value| == MinLength(iterables)
      ensures r.Ok? ==> forall k :: 0 <= k < MinLength(iterables) ==>
        CloseOneSpec(State(), Column(iterables, k), invoke).outcome == Ok(r.value[k])
      ensures r.Err? ==>
        exists k :: 0 <= k < MinLength(iterables) && CloseOneSpec(State(), Column(iterables, k), invoke).outcome == Err(r.error)
          && forall j :: 0 <= j < k ==> CloseOneSpec(State(), Column(iterables, j), invoke).outcome.Ok?
      ensures RunAll(r, calls) == CloseAllSpec(State(), Zip(iterables), invoke)
    {
      var length := |iterables|;
      ghost var rows := Zip(iterables);
      var positions := new nat[length](_ => 0);
      var results: seq<Value> := [];
      calls := [];
      ghost var k := 0;
      while true
        invariant positions.Length == length && fresh(positions)
        invariant 0 <= k <= MinLength(iterables)
        invariant forall i :: 0 <= i < length ==> positions[i] == k
        invariant RunAll(Ok(results), calls) == CloseAllSpec(State(), rows[..k], invoke)
        decreases MinLength(iterables) - k
      {
        var paramSet, finished := NextParamSet(iterables, positions, k);
        if finished {
          r := Ok(results);
          assert rows[..k] == rows;
          break;
        }
        assert paramSet[..] == rows[k];
        var o, c := CloseOne(paramSet[..], invoke);
        if o.Err? {
          CloseAllFail(State(), rows, invoke, k, results, calls, o.error, c);
          r, calls := Err(o.error), calls + c;
          break;
        }
        CloseAllAdvance(State(), rows, invoke, k, results, calls, o.value, c);
        results, calls := results + [o.value], calls + c;
        k := k + 1;
      }
      CloseAllZipMeaning(State(), iterables, invoke);
    }
  }
}
