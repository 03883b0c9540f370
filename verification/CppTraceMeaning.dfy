/** What a call traced by the C++ context means. */
module CppTraceMeaning {
  import opened Common
  import opened Ir
  import opened Evaluator
  import opened Fuel
  import opened EvaluationExact
  import opened Relevance
  import opened Tracing
  import opened TraceTrees
  import opened TraceMeaning
  import opened TraceTheorem
  import opened TraceReference
  import opened CppTracing

  // The function is called on all its arguments, in order, packed as one struct when there is
  // more than one.

  /** The call of `fn` on `args`, without any names. */
  function CallTree(fn: Value, args: seq<Value>): Value
    requires args != []
  {
    match |args|
    case 1 => Call(fn, Some(args[0]), NO_META)
    case _ => Call(fn, Some(Struct(args, NO_META)), NO_META)
  }

  /** What the context may be handed: references it made, calls it returned, and own IR. */
  ghost predicate Accepts(rt: Runtime, m: Mode, irs: Trace, fn: Value, args: seq<Value>) {
    TraceOk(rt, m, irs) && Traceable(rt, m, |irs|, fn) && AllTraceable(rt, m, |irs|, args) && args != []
  }

  /** Expanding the names in the call that is returned gives the call of the function on all
      the arguments, and the call may be handed to the context again. */
  lemma {:induction false} CppCallExpands(rt: Runtime, m: Mode, irs: Trace, fn: Value, args: seq<Value>)
    requires Accepts(rt, m, irs, fn, args)
    ensures var (irs', call) := CppCall(irs, fn, args);
            && TraceOk(rt, m, irs') && Traceable(rt, m, |irs'|, call)
            && Expand(Trees(irs'), call) == CallTree(Expand(Trees(irs), fn), ExpandAll(Trees(irs), args))
  {
    hide TraceOk, Traceable, Stands, Expand, Trees, Intern;
    var (irs1, refs) := InternAll(irs, args);
    InternAllExpands(rt, m, irs, args);
    TraceableMono(rt, m, |irs|, |irs1|, fn);
    InternExpands(rt, m, irs1, fn);
    var (irs2, f) := Intern(irs1, fn);
    TreesPrefix(irs, irs1);
    ExpandStable(rt, m, Trees(irs), Trees(irs1), |irs|, fn);
    AllStandMono(irs1, irs2, refs, ExpandAll(Trees(irs), args));
    InputExpands(irs2, refs, ExpandAll(Trees(irs), args));
    CallStands(rt, m, irs2, f, Input(refs), Expand(Trees(irs), fn));
  }

  lemma {:induction false} CallStands(rt: Runtime, m: Mode, irs: Trace, f: Value, input: Value, fn: Value)
    requires Stands(irs, f, fn) && InputOk(|irs|, input)
    ensures var call := Value.Call(f, Some(input), NO_META);
            Traceable(rt, m, |irs|, call) && Expand(Trees(irs), call) == Call(fn, Some(ExpandInput(Trees(irs), input)), NO_META)
  {
    hide ExpandInput, Trees;
  }

  /** Every name that the call adds stands for one of the arguments or for the function. */
  lemma {:induction false} NewNames(rt: Runtime, m: Mode, irs: Trace, fn: Value, args: seq<Value>, i: nat)
    requires Accepts(rt, m, irs, fn, args) && |irs| <= i < |CppCall(irs, fn, args).0|
    ensures var t := Trees(CppCall(irs, fn, args).0)[i];
            t == Expand(Trees(irs), fn) || t in ExpandAll(Trees(irs), args)
  {
    hide TraceOk, Traceable, Expand, Trees, ExpandRef;
    var (irs1, refs) := InternAll(irs, args);
    InternAllExpands(rt, m, irs, args);
    InternAllNew(irs, args);
    var (irs2, f) := Intern(irs1, fn);
    TreesPrefix(irs1, irs2);
    if i < |irs1| {
      var k :| 0 <= k < |refs| && refs[k] == RefTo(i);
      assert Stands(irs1, refs[k], ExpandAll(Trees(irs), args)[k]);
      ExpandRefAt(Trees(irs1), i);
    } else {
      TraceableMono(rt, m, |irs|, |irs1|, fn);
      InternExpands(rt, m, irs1, fn);
      TreesPrefix(irs, irs1);
      ExpandStable(rt, m, Trees(irs), Trees(irs1), |irs|, fn);
      ExpandRefAt(Trees(irs2), i);
    }
  }

  /** What `fn` is, called on what `args` are. */
  ghost predicate Called(rt: Runtime, fn: Value, args: seq<Value>, s: Scope, z: XVal) {
    exists f, zs :: Evaluates(rt, fn, s, Ok(f)) && AllAre(rt, args, s, zs) && CallIs(rt, f, zs, z)
  }

  ghost predicate CalledSame(rt: Runtime, m: Mode, fn: Value, args: seq<Value>, s: Scope, y: XVal) {
    exists z :: Called(rt, fn, args, s, z) && Same(rt, m, z, y)
  }

  ghost predicate EvaluatesSame(rt: Runtime, m: Mode, v: Value, s: Scope, z: XVal) {
    exists y :: Evaluates(rt, v, s, Ok(y)) && Same(rt, m, y, z)
  }

  lemma CallTreeCalled(rt: Runtime, fn: Value, args: seq<Value>, s: Scope, z: XVal)
    requires args != []
    ensures Evaluates(rt, CallTree(fn, args), s, Ok(z)) <==> Called(rt, fn, args, s, z)
  {
    hide Evaluates, AllAre, CallIs;
    CallTreeIs(rt, fn, args, s, z);
  }

  /** The call, under the bindings of the context. */
  lemma {:induction false} CppCallSound(rt: Runtime, m: Mode, irs: Trace, fn: Value, args: seq<Value>, s: Scope, y: XVal)
    requires Accepts(rt, m, irs, fn, args) && Covers(rt, m) && ArgBound(rt, m, s)
    requires var (irs', call) := CppCall(irs, fn, args); Evaluates(rt, BodyOf(irs', call), s, Ok(y))
    ensures CalledSame(rt, m, Expand(Trees(irs), fn), ExpandAll(Trees(irs), args), s, y)
  {
    hide Accepts, Covers, ArgBound, TraceOk, Traceable, Expand, Trees, Same, Eval, CppCall, Called, ExpandAll;
    assert args != [] by { AcceptsSome(rt, m, irs, fn, args); }
    var (irs', call) := CppCall(irs, fn, args);
    CppCallExpands(rt, m, irs, fn, args);
    var n: nat :| Eval(rt, n, BodyOf(irs', call), s) == Done(Ok(y));
    var k := BodyBlock(rt, n, irs', call, s, y);
    NothingBound(rt, m, irs', s);
    BlockForward(rt, m, k, irs', call, s, [], y);
    var tree := Expand(Trees(irs'), call);
    var l: nat :| MeansAt(rt, m, l, tree, s, y);
    var z := Eval(rt, l, tree, s).result.value;
    EvalIs(rt, l, tree, s, Ok(z));
    CallTreeCalled(rt, Expand(Trees(irs), fn), ExpandAll(Trees(irs), args), s, z);
  }

  lemma AcceptsSome(rt: Runtime, m: Mode, irs: Trace, fn: Value, args: seq<Value>)
    requires Accepts(rt, m, irs, fn, args)
    ensures args != []
  {
  }

  ghost predicate AllEvaluable(rt: Runtime, ts: seq<Value>, s: Scope) {
    forall i :: 0 <= i < |ts| ==> Evaluable(rt, ts[i], s)
  }

  lemma CalledEvaluable(rt: Runtime, fn: Value, args: seq<Value>, s: Scope, z: XVal)
    requires Called(rt, fn, args, s, z)
    ensures Evaluable(rt, fn, s) && AllEvaluable(rt, args, s)
  {
    hide Eval, CallIs;
    var f, zs :| Evaluates(rt, fn, s, Ok(f)) && AllAre(rt, args, s, zs) && CallIs(rt, f, zs, z);
    var n: nat :| Eval(rt, n, fn, s) == Done(Ok(f));
    forall i | 0 <= i < |args|
      ensures Evaluable(rt, args[i], s)
    {
      var k: nat :| Eval(rt, k, args[i], s) == Done(Ok(zs[i]));
    }
  }

  lemma {:induction false} CppCallComplete(rt: Runtime, m: Mode, irs: Trace, fn: Value, args: seq<Value>, s: Scope, z: XVal)
    requires Accepts(rt, m, irs, fn, args) && Covers(rt, m) && ArgBound(rt, m, s) && AllEvaluable(rt, Trees(irs), s)
    requires Called(rt, Expand(Trees(irs), fn), ExpandAll(Trees(irs), args), s, z)
    ensures var (irs', call) := CppCall(irs, fn, args); EvaluatesSame(rt, m, BodyOf(irs', call), s, z)
  {
    hide Accepts, Covers, ArgBound, TraceOk, Traceable, Expand, Trees, Same, Eval, CppCall, Called, Evaluable, EvalBlock, ExpandAll;
    assert args != [] by { AcceptsSome(rt, m, irs, fn, args); }
    var (irs', call) := CppCall(irs, fn, args);
    CppCallExpands(rt, m, irs, fn, args);
    CallTreeCalled(rt, Expand(Trees(irs), fn), ExpandAll(Trees(irs), args), s, z);
    CalledEvaluable(rt, Expand(Trees(irs), fn), ExpandAll(Trees(irs), args), s, z);
    TreesPrefix(irs, irs');
    forall i | 0 <= i < |irs'|
      ensures Evaluable(rt, Trees(irs')[i], s)
    {
      if i < |irs| {
        assert Trees(irs')[i] == Trees(irs)[i];
      } else {
        NewNames(rt, m, irs, fn, args, i);
      }
    }
    var n: nat :| Eval(rt, n, Expand(Trees(irs'), call), s) == Done(Ok(z));
    NothingBound(rt, m, irs', s);
    var k := BlockBackward(rt, m, n, irs', call, s, [], z);
    EvalBlockMono(rt, k, k + 1, LocalsOf(irs'), call, s);
    BodyEval(rt, k, irs', call, s);
    var y := EvalBlock(rt, k, LocalsOf(irs'), call, s).result.value;
    EvalIs(rt, k + 1, BodyOf(irs', call), s, Ok(y));
  }

  /** Under the bindings of the context, in order, the returned call gives a value exactly when
      calling what the function is on what the arguments are does, and one of the same meaning:
      provided that what was bound before evaluates, since all bindings are evaluated. */
  lemma {:induction false} CppCallMeaning(rt: Runtime, m: Mode, irs: Trace, fn: Value, args: seq<Value>, s: Scope)
    requires Accepts(rt, m, irs, fn, args) && Covers(rt, m) && ArgBound(rt, m, s) && AllEvaluable(rt, Trees(irs), s)
    ensures var (irs', call) := CppCall(irs, fn, args);
            var f, ts := Expand(Trees(irs), fn), ExpandAll(Trees(irs), args);
            && (forall y :: Evaluates(rt, BodyOf(irs', call), s, Ok(y)) ==> CalledSame(rt, m, f, ts, s, y))
            && (forall z :: Called(rt, f, ts, s, z) ==> EvaluatesSame(rt, m, BodyOf(irs', call), s, z))
  {
    hide Accepts, Covers, ArgBound, AllEvaluable, Evaluates, Called, CalledSame, EvaluatesSame, Trees, Expand, ExpandAll, CppCall;
    assert args != [] by { AcceptsSome(rt, m, irs, fn, args); }
    var (irs', call) := CppCall(irs, fn, args);
    forall y | Evaluates(rt, BodyOf(irs', call), s, Ok(y))
      ensures CalledSame(rt, m, Expand(Trees(irs), fn), ExpandAll(Trees(irs), args), s, y)
    {
      CppCallSound(rt, m, irs, fn, args, s, y);
    }
    forall z | Called(rt, Expand(Trees(irs), fn), ExpandAll(Trees(irs), args), s, z)
      ensures EvaluatesSame(rt, m, BodyOf(irs', call), s, z)
    {
      CppCallComplete(rt, m, irs, fn, args, s, z);
    }
  }
}
