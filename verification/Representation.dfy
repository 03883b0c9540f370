/** Local and embedded structs. A struct may be held locally, as `Structure`, or pushed to
    the child executor, as `Embedded`. This module says when the difference shows. */
module Representation {
  import opened Common
  import opened Ir
  import opened Evaluator
  import opened StructUse

  // ----- single operations -----

  predicate AllOk(futures: seq<Result<Value>>) {
    forall i :: 0 <= i < |futures| ==> futures[i].Ok?
  }

  lemma {:induction false} MembersOk(futures: seq<Result<Value>>)
    ensures ChildMembers(futures).Ok? <==> AllOk(futures)
    ensures ChildMembers(futures).Ok? ==>
              && |ChildMembers(futures).value| == |futures|
              && forall i :: 0 <= i < |futures| ==> futures[i] == Ok(ChildMembers(futures).value[i])
    decreases |futures|
  {
    if futures != [] {
      MembersOk(futures[1..]);
      assert futures == [futures[0]] + futures[1..];
    }
  }

  lemma {:induction false} EmbedAllAt(xs: seq<XVal>)
    ensures EmbedAll(xs).Ok? <==> forall i :: 0 <= i < |xs| ==> Embed(xs[i]).Ok?
    ensures EmbedAll(xs).Ok? ==> forall i :: 0 <= i < |xs| ==> Embed(xs[i]) == Ok(EmbedAll(xs).value[i])
    decreases |xs|
  {
    if xs != [] {
      EmbedAllAt(xs[1..]);
      assert xs == [xs[0]] + xs[1..];
    }
  }

  /** The payload of a selection, as far as a caller can see it. */
  function Selected(x: XVal, index: nat): Result<Value> {
    var y :- Selection(x, index);
    Materialize(y)
  }

  /** Selecting from the embedded form is the stricter one: what it yields, the local form
      yields too. The two agree on success exactly when the index is out of range, the
      selected field itself fails, or no field fails. */
  lemma {:induction false} SelectionAgreement(xs: seq<XVal>, index: nat)
    requires EmbedAll(xs).Ok?
    ensures var fields := EmbedAll(xs).value;
            var local := Selected(Structure(xs), index);
            var embedded := Selected(Embedded(ChildStruct(fields)), index);
            && (embedded.Ok? ==> local == embedded)
            && ((local.Ok? <==> embedded.Ok?)
                <==> index >= |xs| || fields[index].Err? || AllOk(fields))
  {
    EmbedAllAt(xs);
    MembersOk(EmbedAll(xs).value);
  }

  /** A failing sibling is enough to tell the two apart. */
  lemma SelectionDiffers(good: Value, error: Code)
    ensures var xs := [Embedded(Ok(good)), Embedded(Err(error))];
            && EmbedAll(xs).Ok?
            && Selected(Structure(xs), 0) == Ok(good)
            && Selected(Embedded(ChildStruct(EmbedAll(xs).value)), 0).Err?
  {
    var xs := [Embedded(Ok(good)), Embedded(Err(error))];
    EmbedAllAt(xs);
    assert EmbedAll(xs).value[1] == Err(error);
    SelectionAgreement(xs, 0);
  }

  /** Materialising and passing as an argument never tell the forms apart. */
  lemma {:induction false} EmbeddingIsTransparent(rt: Runtime, f: Result<Value>, x: XVal)
    requires Embed(x).Ok?
    ensures Materialize(Embedded(Embed(x).value)) == Materialize(x)
    ensures ApplyEmbedded(rt, f, Some(Embedded(Embed(x).value))) == ApplyEmbedded(rt, f, Some(x))
  {
  }

  // ----- whole programs -----

  /** What may occur in the runs under comparison. `written`: the code has no selections, and
      every function it calls or hands to a handler is written there as a lambda or an
      intrinsic. `reentry`: it may evaluate payloads again. `fallback`: it may contain
      `Fallback`. `failing`: structs with a failed field may be embedded as well. */
  datatype Rules = Rules(written: bool, reentry: bool, fallback: bool, failing: bool)

  predicate IsFunction(v: Value) {
    v.Lambda? || v.Intrinsic?
  }

  /** The static parameters that the handler for `op` calls are written functions. */
  predicate FunctionsWritten(op: Op, fixed: Option<Value>) {
    match op
    case SerialChain => forall i :: 0 <= i < |FixedElements(fixed)| ==> IsFunction(FixedElements(fixed)[i])
    case BreakableChain => forall i :: 0 <= i < |FixedElements(fixed)| ==> IsFunction(FixedElements(fixed)[i])
    case RepeatedConditionalChain => forall i :: 1 <= i < |FixedElements(fixed)| ==> IsFunction(FixedElements(fixed)[i])
    case ParallelMap => fixed.Some? ==> IsFunction(fixed.value)
    case Repeat => IsFunction(FixedAt(fixed, 1))
    case While => IsFunction(FixedAt(fixed, 0)) && IsFunction(FixedAt(fixed, 1))
    case Conditional => true
    case Fallback => forall i :: 0 <= i < |FixedElements(fixed)| ==> IsFunction(FixedElements(fixed)[i])
  }

  predicate OpAllowed(r: Rules, op: Op, fixed: Option<Value>) {
    && (op.Fallback? ==> r.written || r.fallback)
    && (!r.reentry ==> !op.ParallelMap? && !op.RepeatedConditionalChain?)
    && (r.written ==> FunctionsWritten(op, fixed))
  }

  predicate CodeOk(rt: Runtime, r: Rules, v: Value) {
    match v
    case NotSet(_) => true
    case Leaf(_, _) => true
    case Ref(_, _) => true
    case Struct(elements, _) => forall i :: 0 <= i < |elements| ==> CodeOk(rt, r, elements[i])
    case Select(source, _, _) => !r.written && CodeOk(rt, r, source)
    case Lambda(_, body, _) => CodeOk(rt, r, body)
    case Call(f, a, _) => CodeOk(rt, r, f) && (a.Some? ==> CodeOk(rt, r, a.value)) && (r.written ==> IsFunction(f))
    case Block(locals, result, _) =>
      CodeOk(rt, r, result) && forall i :: 0 <= i < |locals| ==> CodeOk(rt, r, locals[i].value)
    case Intrinsic(uri, fixed, _) =>
      rt.kind(uri).ControlFlow? ==>
        OpAllowed(r, rt.kind(uri).op, fixed) && (fixed.Some? ==> CodeOk(rt, r, fixed.value))
  }

  predicate OperatorOk(rt: Runtime, r: Rules, op: Op, fixed: Option<Value>) {
    OpAllowed(r, op, fixed) && (fixed.Some? ==> CodeOk(rt, r, fixed.value))
  }

  /** Payloads matter as code only where they are evaluated again. */
  predicate DataOk(rt: Runtime, r: Rules, d: Value) {
    r.reentry ==> CodeOk(rt, r, d)
  }

  /** Where payloads are evaluated again, the inline handlers invent no forbidden code. */
  ghost predicate Keeps(rt: Runtime, r: Rules) {
    r.reentry ==>
      forall uri, fixed, d :: CodeOk(rt, r, d) && rt.inline(uri, fixed, d).Ok? ==> CodeOk(rt, r, rt.inline(uri, fixed, d).value)
  }

  /** `y` is `x` with some local structs embedded in the child executor: error-free ones, and
      where the rules allow it also failing ones, which become failed futures. */
  ghost predicate Sim(rt: Runtime, r: Rules, x: XVal, y: XVal)
    decreases x
  {
    match x
    case Embedded(future) => y == x && (future.Ok? ==> DataOk(rt, r, future.value))
    case Structure(xs) =>
      if y.Structure? then |xs| == |y.elements| && forall i :: 0 <= i < |xs| ==> Sim(rt, r, xs[i], y.elements[i])
      else if Failed(y) then r.failing && Embed(x) == Ok(y.future)
      else
        && IsStruct(y) && y.future.value.meta == NO_META
        && |xs| == |y.future.value.elements|
        && forall i :: 0 <= i < |xs| ==> Sim(rt, r, xs[i], Embedded(Ok(y.future.value.elements[i])))
    case Closure(param, body, s) =>
      y.Closure? && y.param == param && y.body == body && CodeOk(rt, r, body) && SimScope(rt, r, s, y.scope)
    case Operator(op, fixed, s) =>
      y.Operator? && y.op == op && y.fixed == fixed && OperatorOk(rt, r, op, fixed) && SimScope(rt, r, s, y.scope)
  }

  ghost predicate SimScope(rt: Runtime, r: Rules, s: Scope, t: Scope)
    decreases s
  {
    match s
    case Root => t.Root?
    case Bind(name, x, parent) =>
      t.Bind? && t.name == name && Sim(rt, r, x, t.value) && SimScope(rt, r, parent, t.parent)
  }

  ghost predicate SimAll(rt: Runtime, r: Rules, xs: seq<XVal>, ys: seq<XVal>) {
    |xs| == |ys| && forall i :: 0 <= i < |xs| ==> Sim(rt, r, xs[i], ys[i])
  }

  lemma SimAllEmpty(rt: Runtime, r: Rules)
    ensures SimAll(rt, r, [], [])
  {
  }

  lemma {:induction false} SimAllCons(rt: Runtime, r: Rules, x: XVal, y: XVal, xs: seq<XVal>, ys: seq<XVal>)
    requires Sim(rt, r, x, y) && SimAll(rt, r, xs, ys)
    ensures SimAll(rt, r, [x] + xs, [y] + ys)
  {
    hide Sim;
  }

  lemma {:induction false} StructureSim(rt: Runtime, r: Rules, xs: seq<XVal>, ys: seq<XVal>)
    requires SimAll(rt, r, xs, ys)
    ensures Sim(rt, r, Structure(xs), Structure(ys))
  {
  }

  lemma {:induction false} EmbedSim(rt: Runtime, r: Rules, x: XVal, y: XVal)
    requires Sim(rt, r, x, y)
    ensures Embed(x) == Embed(y) && Materialize(x) == Materialize(y)
    ensures Materialize(x).Ok? ==> DataOk(rt, r, Materialize(x).value)
    decreases x, 1
  {
    match x
    case Embedded(_) =>
    case Closure(_, _, _) =>
    case Operator(_, _, _) =>
    case Structure(xs) =>
      if y.Structure? {
        EmbedAllSim(rt, r, xs, y.elements);
        if EmbedAll(xs).Ok? {
          MembersOk(EmbedAll(xs).value);
        }
      } else if !Failed(y) {
        var ds := y.future.value.elements;
        EmbedAllData(rt, r, xs, ds);
      }
  }

  lemma {:induction false} EmbedAllSim(rt: Runtime, r: Rules, xs: seq<XVal>, ys: seq<XVal>)
    requires SimAll(rt, r, xs, ys)
    ensures EmbedAll(xs) == EmbedAll(ys)
    ensures EmbedAll(xs).Ok? ==>
              forall i :: 0 <= i < |xs| ==> EmbedAll(xs).value[i].Ok? ==> DataOk(rt, r, EmbedAll(xs).value[i].value)
    decreases xs, 0
  {
    if xs != [] {
      EmbedSim(rt, r, xs[0], ys[0]);
      EmbedAllSim(rt, r, xs[1..], ys[1..]);
    }
  }

  lemma {:induction false} EmbedAllData(rt: Runtime, r: Rules, xs: seq<XVal>, ds: seq<Value>)
    requires |xs| == |ds| && forall i :: 0 <= i < |xs| ==> Sim(rt, r, xs[i], Embedded(Ok(ds[i])))
    ensures EmbedAll(xs).Ok? && ChildMembers(EmbedAll(xs).value) == Ok(ds)
    ensures forall i :: 0 <= i < |ds| ==> DataOk(rt, r, ds[i])
    decreases xs, 0
  {
    if xs != [] {
      EmbedSim(rt, r, xs[0], Embedded(Ok(ds[0])));
      EmbedAllData(rt, r, xs[1..], ds[1..]);
      assert EmbedAll(xs).value == [Ok(ds[0])] + EmbedAll(xs[1..]).value;
      assert EmbedAll(xs).value[1..] == EmbedAll(xs[1..]).value;
      assert [ds[0]] + ds[1..] == ds;
      assert forall i :: 1 <= i < |ds| ==> ds[i] == ds[1..][i - 1];
    }
  }

  lemma {:induction false} ResolveSim(rt: Runtime, r: Rules, s: Scope, t: Scope, name: string)
    requires SimScope(rt, r, s, t)
    ensures if Resolve(s, name).Ok? then Resolve(t, name).Ok? && Sim(rt, r, Resolve(s, name).value, Resolve(t, name).value)
            else Resolve(t, name) == Resolve(s, name)
    decreases s
  {
    if s.Bind? {
      ResolveSim(rt, r, s.parent, t.parent, name);
    }
  }

  lemma {:induction false} SelectionSim(rt: Runtime, r: Rules, x: XVal, y: XVal, index: nat)
    requires Sim(rt, r, x, y) && !(x.Structure? && Failed(y))
    ensures Selection(x, index).Ok? ==>
              Selection(y, index).Ok? && Sim(rt, r, Selection(x, index).value, Selection(y, index).value)
    ensures Selection(x, index).Err? && InRange(false, y, index) ==> Selection(y, index) == Selection(x, index)
  {
  }

  // ----- telling the forms apart -----

  /** Out of range, a local selection fails at once while an embedded one fails only when it
      is used. So the converse of `EvalSim` is false: here the selection is never used. */
  const IGNORES_SELECTION := Call(Lambda("_", Leaf(Int32(5), NO_META), NO_META), Some(Select(Ref("x", NO_META), 7, NO_META)), NO_META)

  lemma {:induction false} LazyErrorShows(rt: Runtime)
    ensures var local, embedded := Structure([]), Embedded(Ok(Struct([], NO_META)));
            && (forall r: Rules :: Sim(rt, r, local, embedded))
            && Evaluates(rt, IGNORES_SELECTION, Bind("x", local, Root), Err(NotFound))
            && Evaluates(rt, IGNORES_SELECTION, Bind("x", embedded, Root), Ok(Embedded(Ok(Leaf(Int32(5), NO_META)))))
  {
    var s, t := Bind("x", Structure([]), Root), Bind("x", Embedded(Ok(Struct([], NO_META))), Root);
    var f, a := IGNORES_SELECTION.fn, IGNORES_SELECTION.argument.value;
    assert Eval(rt, 4, f, s) == Done(Ok(Closure("_", Leaf(Int32(5), NO_META), s)));
    assert Eval(rt, 4, a, s) == Done(Err(NotFound));
    assert Eval(rt, 5, IGNORES_SELECTION, s) == Done(Err(NotFound));
    var y := Embedded(Err(OutOfRange));
    assert Eval(rt, 4, a, t) == Done(Ok(y));
    assert EvalArgument(rt, 4, Some(a), t) == Done(Ok(Some(y)));
    assert Eval(rt, 4, f, t) == Done(Ok(Closure("_", Leaf(Int32(5), NO_META), t)));
    assert Eval(rt, 5, IGNORES_SELECTION, t) == Apply(rt, 4, Closure("_", Leaf(Int32(5), NO_META), t), Some(y));
    assert Eval(rt, 5, IGNORES_SELECTION, t) == Done(Ok(Embedded(Ok(Leaf(Int32(5), NO_META)))));
  }

  /** For a struct that failed even that is proper use in the embedded run, which sees no
      struct; only a `strict` run rules it out. */
  lemma {:induction false} FailedStructShows(rt: Runtime, c: Code)
    ensures var local, embedded := Structure([Embedded(Err(c))]), Embedded(Err(c));
            && (forall r: Rules :: Sim(rt, r, local, embedded) <==> r.failing)
            && Evaluates(rt, IGNORES_SELECTION, Bind("x", local, Root), Err(NotFound))
            && Evaluates(rt, IGNORES_SELECTION, Bind("x", embedded, Root), Ok(Embedded(Ok(Leaf(Int32(5), NO_META)))))
            && ProperEval(rt, false, 5, IGNORES_SELECTION, Bind("x", embedded, Root))
            && !ProperEval(rt, true, 5, IGNORES_SELECTION, Bind("x", embedded, Root))
  {
    var local, y := Structure([Embedded(Err(c))]), Embedded(Err(c));
    var s, t := Bind("x", local, Root), Bind("x", y, Root);
    var f, a := IGNORES_SELECTION.fn, IGNORES_SELECTION.argument.value;
    assert Embed(local) == Ok(Err(c)) by {
      assert EmbedAll(local.elements[1..]) == Ok([]) && Embed(local.elements[0]) == Ok(Err(c));
      var e: Result<Value> := Err(c);
      assert [e] + [] == [e] && ChildMembers([e]) == Err(c);
    }
    assert Eval(rt, 4, f, s) == Done(Ok(Closure("_", Leaf(Int32(5), NO_META), s)));
    assert Eval(rt, 3, a.source, s) == Done(Ok(local)) && Eval(rt, 3, a.source, t) == Done(Ok(y));
    assert Eval(rt, 4, a, s) == Done(Err(NotFound));
    assert Eval(rt, 5, IGNORES_SELECTION, s) == Done(Err(NotFound));
    assert Eval(rt, 4, a, t) == Done(Ok(y));
    assert EvalArgument(rt, 4, Some(a), t) == Done(Ok(Some(y)));
    assert Eval(rt, 4, f, t) == Done(Ok(Closure("_", Leaf(Int32(5), NO_META), t)));
    assert Apply(rt, 4, Closure("_", Leaf(Int32(5), NO_META), t), Some(y)) == Done(Ok(Embedded(Ok(Leaf(Int32(5), NO_META)))));
    assert Eval(rt, 5, IGNORES_SELECTION, t) == Done(Ok(Embedded(Ok(Leaf(Int32(5), NO_META)))));
    assert ProperEval(rt, false, 4, a, t) && !ProperEval(rt, true, 4, a, t);
  }

  /** The same happens when a struct is called: an eager error locally, a lazy one in the
      child. Here too the failing value is never used. */
  const IGNORES_CALL := Call(Lambda("_", Leaf(Int32(5), NO_META), NO_META), Some(Call(Ref("x", NO_META), Some(Leaf(Int32(1), NO_META)), NO_META)), NO_META)

  lemma CalledStructShows(rt: Runtime)
    ensures Evaluates(rt, IGNORES_CALL, Bind("x", Structure([]), Root), Err(InvalidArgument))
    ensures Evaluates(rt, IGNORES_CALL, Bind("x", Embedded(Ok(Struct([], NO_META))), Root),
                      Ok(Embedded(Ok(Leaf(Int32(5), NO_META)))))
  {
    var one, five := Leaf(Int32(1), NO_META), Leaf(Int32(5), NO_META);
    var s, t := Bind("x", Structure([]), Root), Bind("x", Embedded(Ok(Struct([], NO_META))), Root);
    var f, a := IGNORES_CALL.fn, IGNORES_CALL.argument.value;
    assert Eval(rt, 5, f, s) == Done(Ok(Closure("_", five, s))) && Eval(rt, 5, f, t) == Done(Ok(Closure("_", five, t)));
    assert EvalArgument(rt, 4, Some(one), s) == Done(Ok(Some(Embedded(Ok(one)))));
    assert Eval(rt, 5, a, s) == Done(Err(InvalidArgument));
    assert Eval(rt, 6, IGNORES_CALL, s) == Done(Err(InvalidArgument));
    var y := Embedded(Err(InvalidArgument));
    assert EvalArgument(rt, 4, Some(one), t) == Done(Ok(Some(Embedded(Ok(one)))));
    assert Apply(rt, 4, Embedded(Ok(Struct([], NO_META))), Some(Embedded(Ok(one)))) == Done(Ok(y));
    assert Eval(rt, 5, a, t) == Done(Ok(y));
    assert EvalArgument(rt, 5, Some(a), t) == Done(Ok(Some(y)));
    assert Eval(rt, 6, IGNORES_CALL, t) == Apply(rt, 5, Closure("_", five, t), Some(y));
    assert Apply(rt, 5, Closure("_", five, t), Some(y)) == Done(Ok(Embedded(Ok(five))));
  }

  /** With `Fallback` the two forms even give two different values: the first candidate fails
      for the local struct only. */
  lemma {:induction false} FallbackTellsFormsApart(rt: Runtime, s: Scope, local: bool)
    requires Resolve(s, "x") == Ok(if local then Structure([]) else Embedded(Ok(Struct([], NO_META))))
    ensures var first, second := Lambda("y", IGNORES_SELECTION, NO_META), Lambda("y", Leaf(Int32(6), NO_META), NO_META);
            var arg := Some(Embedded(Ok(Leaf(Str("x"), NO_META))));
            FallbackFrom(rt, 7, [first, second], arg, Unavailable, s)
            == Done(Ok(Embedded(Ok(Leaf(Int32(if local then 6 else 5), NO_META)))))
  {
    var second := Lambda("y", Leaf(Int32(6), NO_META), NO_META);
    var arg := Embedded(Ok(Leaf(Str("x"), NO_META)));
    FirstCandidate(rt, s, local);
    assert Create(rt, 7, second, s) == Done(Ok(Closure("y", Leaf(Int32(6), NO_META), s)));
    assert Apply(rt, 7, Closure("y", Leaf(Int32(6), NO_META), s), Some(arg)) == Done(Ok(Embedded(Ok(Leaf(Int32(6), NO_META)))));
    assert Candidate(rt, 7, second, Some(arg), s) == Done(Ok(Embedded(Ok(Leaf(Int32(6), NO_META)))));
    var fns := [Lambda("y", IGNORES_SELECTION, NO_META), second];
    assert fns[1..][0] == second;
  }

  lemma {:induction false} FirstCandidate(rt: Runtime, s: Scope, local: bool)
    requires Resolve(s, "x") == Ok(if local then Structure([]) else Embedded(Ok(Struct([], NO_META))))
    ensures Candidate(rt, 7, Lambda("y", IGNORES_SELECTION, NO_META), Some(Embedded(Ok(Leaf(Str("x"), NO_META)))), s)
         == Done(if local then Err(NotFound) else Ok(Embedded(Ok(Leaf(Int32(5), NO_META)))))
  {
    var candidate := Lambda("y", IGNORES_SELECTION, NO_META);
    var arg := Embedded(Ok(Leaf(Str("x"), NO_META)));
    var t := Bind("y", arg, s);
    var f, a := IGNORES_SELECTION.fn, IGNORES_SELECTION.argument.value;
    var g := Closure("_", Leaf(Int32(5), NO_META), t);
    assert Eval(rt, 5, f, t) == Done(Ok(g));
    assert Eval(rt, 4, Ref("x", NO_META), t) == Done(Resolve(s, "x"));
    var y := Selection(Resolve(s, "x").value, 7);
    assert Eval(rt, 5, a, t) == Done(y);
    if y.Ok? {
      assert EvalArgument(rt, 5, Some(a), t) == Done(Ok(Some(y.value)));
      assert Apply(rt, 5, g, Some(y.value)) == Done(Ok(Embedded(Ok(Leaf(Int32(5), NO_META)))));
    }
    assert Create(rt, 7, candidate, s) == Done(Ok(Closure("y", IGNORES_SELECTION, s)));
    assert Apply(rt, 7, Closure("y", IGNORES_SELECTION, s), Some(arg)) == Eval(rt, 6, IGNORES_SELECTION, t);
  }

  // ----- evaluation, function by function -----

  /** The two runs must agree in everything: the code is of the written kind, or the embedded
      run uses its structs properly. */
  predicate Exact(r: Rules, proper: bool) {
    r.written || proper
  }

  /** Otherwise they agree in what the local run yields, as long as errors stay errors. */
  predicate OneWay(r: Rules) {
    !r.fallback && !r.failing
  }

  ghost predicate Both(rt: Runtime, r: Rules, o: Outcome<XVal>, p: Outcome<XVal>) {
    o.IsOk() && p.IsOk() && Sim(rt, r, o.result.value, p.result.value)
  }

  ghost predicate BothAll(rt: Runtime, r: Rules, o: Outcome<seq<XVal>>, p: Outcome<seq<XVal>>) {
    o.IsOk() && p.IsOk() && SimAll(rt, r, o.result.value, p.result.value)
  }

  /** What the local outcome `o` and the embedded outcome `p` have to do with each other. */
  ghost predicate SimOutcome(rt: Runtime, r: Rules, proper: bool, o: Outcome<XVal>, p: Outcome<XVal>) {
    && (Exact(r, proper) || OneWay(r) ==> o.IsOk() ==> Both(rt, r, o, p))
    && (Exact(r, proper) ==> !o.IsOk() ==> p == o)
  }

  ghost predicate SimOutcomes(rt: Runtime, r: Rules, proper: bool, o: Outcome<seq<XVal>>, p: Outcome<seq<XVal>>) {
    && (Exact(r, proper) || OneWay(r) ==> o.IsOk() ==> BothAll(rt, r, o, p))
    && (Exact(r, proper) ==> !o.IsOk() ==> p == o)
  }

  ghost predicate SimArgument(rt: Runtime, r: Rules, a: Option<XVal>, b: Option<XVal>) {
    (a.Some? <==> b.Some?) && (a.Some? ==> Sim(rt, r, a.value, b.value))
  }

  /** A written function is not a struct. */
  predicate Callable(r: Rules, f: XVal) {
    r.written ==> !f.Structure?
  }

  lemma {:induction false} FunctionCallable(rt: Runtime, r: Rules, n: nat, v: Value, s: Scope)
    requires r.written ==> IsFunction(v)
    ensures Eval(rt, n, v, s).IsOk() ==> Callable(r, Eval(rt, n, v, s).result.value)
    ensures Create(rt, n, v, s).IsOk() ==> Callable(r, Create(rt, n, v, s).result.value)
  {
  }

  /** Holding structs locally or in the child makes no difference if the code calls only
      written functions and selects nothing, or if the embedded run uses its structs properly.
      Otherwise what the local run yields the embedded run still yields, provided that the code
      contains no `Fallback` and the embedded structs are error-free. */
  lemma {:induction false} EvalSim(rt: Runtime, r: Rules, n: nat, v: Value, s: Scope, t: Scope)
    requires Keeps(rt, r) && CodeOk(rt, r, v) && SimScope(rt, r, s, t)
    ensures SimOutcome(rt, r, ProperEval(rt, r.failing, n, v, t), Eval(rt, n, v, s), Eval(rt, n, v, t))
    decreases n, 0, 0
  {
    hide Keeps, SimScope;
    if n == 0 { return; }
    match v
    case NotSet(_) => EvalAtomSim(rt, r, n, v, s, t);
    case Leaf(_, _) => EvalAtomSim(rt, r, n, v, s, t);
    case Lambda(_, _, _) => EvalAtomSim(rt, r, n, v, s, t);
    case Intrinsic(_, _, _) => EvalAtomSim(rt, r, n, v, s, t);
    case Ref(name, _) => ResolveSim(rt, r, s, t, name);
    case Struct(elements, _) => EvalAllSim(rt, r, n - 1, elements, s, t);
    case Select(_, _, _) => EvalSelectSim(rt, r, n, v, s, t);
    case Block(locals, result, _) => EvalBlockSim(rt, r, n - 1, locals, result, s, t);
    case Call(_, _, _) => EvalCallSim(rt, r, n, v, s, t);
  }

  lemma {:induction false} EvalAtomSim(rt: Runtime, r: Rules, n: nat, v: Value, s: Scope, t: Scope)
    requires n > 0 && (v.NotSet? || v.Leaf? || v.Lambda? || v.Intrinsic?)
    requires CodeOk(rt, r, v) && SimScope(rt, r, s, t)
    ensures SimOutcome(rt, r, ProperEval(rt, r.failing, n, v, t), Eval(rt, n, v, s), Eval(rt, n, v, t))
  {
  }

  lemma {:induction false} EvalSelectSim(rt: Runtime, r: Rules, n: nat, v: Value, s: Scope, t: Scope)
    requires n > 0 && v.Select? && Keeps(rt, r) && CodeOk(rt, r, v) && SimScope(rt, r, s, t)
    ensures SimOutcome(rt, r, ProperEval(rt, r.failing, n, v, t), Eval(rt, n, v, s), Eval(rt, n, v, t))
    decreases n - 1, 2, 0
  {
    hide Keeps, Sim, SimScope, Selection, InRange;
    EvalSim(rt, r, n - 1, v.source, s, t);
    var x, y := Eval(rt, n - 1, v.source, s), Eval(rt, n - 1, v.source, t);
    if Both(rt, r, x, y) {
      SelectedSim(rt, r, x.result.value, y.result.value, U32(v.index));
    }
  }

  lemma {:induction false} SelectedSim(rt: Runtime, r: Rules, x: XVal, y: XVal, index: nat)
    requires Sim(rt, r, x, y) && !r.written
    ensures SimOutcome(rt, r, InRange(r.failing, y, index), Done(Selection(x, index)), Done(Selection(y, index)))
  {
    if !(x.Structure? && Failed(y)) {
      SelectionSim(rt, r, x, y, index);
    }
  }

  lemma {:induction false} EvalCallSim(rt: Runtime, r: Rules, n: nat, v: Value, s: Scope, t: Scope)
    requires n > 0 && v.Call? && Keeps(rt, r) && CodeOk(rt, r, v) && SimScope(rt, r, s, t)
    ensures SimOutcome(rt, r, ProperEval(rt, r.failing, n, v, t), Eval(rt, n, v, s), Eval(rt, n, v, t))
    decreases n - 1, 3, 0
  {
    CallTurn(rt, r.failing, n, v, s);
    CallTurn(rt, r.failing, n, v, t);
    hide Keeps, Sim, SimScope, Eval, ProperEval, CallOf, ProperCallOf, Callable;
    EvalSim(rt, r, n - 1, v.fn, s, t);
    FunctionCallable(rt, r, n - 1, v.fn, s);
    var f, g := Eval(rt, n - 1, v.fn, s), Eval(rt, n - 1, v.fn, t);
    if Both(rt, r, f, g) {
      CallOfSim(rt, r, n - 1, f.result.value, g.result.value, v.argument, s, t);
    }
  }

  /** A call whose function has evaluated to `f`. */
  function CallOf(rt: Runtime, n: nat, f: XVal, a: Option<Value>, s: Scope): Outcome<XVal> {
    var x := EvalArgument(rt, n, a, s);
    if x.IsOk() then Apply(rt, n, f, x.result.value) else x.PropagateFailure()
  }

  ghost predicate ProperCallOf(rt: Runtime, strict: bool, n: nat, f: XVal, a: Option<Value>, s: Scope) {
    var x := EvalArgument(rt, n, a, s);
    (a.Some? ==> ProperEval(rt, strict, n, a.value, s)) && (x.IsOk() ==> ProperApply(rt, strict, n, f, x.result.value))
  }

  lemma {:induction false} CallTurn(rt: Runtime, strict: bool, n: nat, v: Value, s: Scope)
    requires n > 0 && v.Call?
    ensures var f := Eval(rt, n - 1, v.fn, s);
            Eval(rt, n, v, s) == if f.IsOk() then CallOf(rt, n - 1, f.result.value, v.argument, s) else f
    ensures ProperEval(rt, strict, n, v, s) ==>
              var f := Eval(rt, n - 1, v.fn, s);
              && ProperEval(rt, strict, n - 1, v.fn, s)
              && (f.IsOk() ==> ProperCallOf(rt, strict, n - 1, f.result.value, v.argument, s))
  {
    hide Apply, ProperApply;
  }

  lemma {:induction false} CallOfSim(
      rt: Runtime, r: Rules, n: nat, f: XVal, g: XVal, a: Option<Value>, s: Scope, t: Scope)
    requires Keeps(rt, r) && SimScope(rt, r, s, t) && Sim(rt, r, f, g) && Callable(r, f)
    requires a.Some? ==> CodeOk(rt, r, a.value)
    ensures SimOutcome(rt, r, ProperCallOf(rt, r.failing, n, g, a, t), CallOf(rt, n, f, a, s), CallOf(rt, n, g, a, t))
    decreases n, 2, 0
  {
    hide Keeps, Sim, SimScope, CodeOk, Eval, ProperEval, Apply, ProperApply, Callable;
    if a.Some? {
      EvalSim(rt, r, n, a.value, s, t);
    }
    var x, y := EvalArgument(rt, n, a, s), EvalArgument(rt, n, a, t);
    if x.IsOk() && y.IsOk() && SimArgument(rt, r, x.result.value, y.result.value) {
      ApplySim(rt, r, n, f, g, x.result.value, y.result.value);
    }
  }

  lemma {:induction false} EvalAllSim(rt: Runtime, r: Rules, n: nat, vs: seq<Value>, s: Scope, t: Scope)
    requires Keeps(rt, r) && SimScope(rt, r, s, t) && forall i :: 0 <= i < |vs| ==> CodeOk(rt, r, vs[i])
    ensures SimOutcomes(rt, r, ProperAll(rt, r.failing, n, vs, t), EvalAll(rt, n, vs, s), EvalAll(rt, n, vs, t))
    decreases n, 1, |vs|
  {
    hide Keeps, Sim, SimScope;
    if vs != [] {
      EvalSim(rt, r, n, vs[0], s, t);
      EvalAllSim(rt, r, n, vs[1..], s, t);
    }
  }

  lemma {:induction false} EvalBlockSim(
      rt: Runtime, r: Rules, n: nat, locals: seq<Local>, result: Value, s: Scope, t: Scope)
    requires Keeps(rt, r) && SimScope(rt, r, s, t)
    requires CodeOk(rt, r, result) && forall i :: 0 <= i < |locals| ==> CodeOk(rt, r, locals[i].value)
    ensures SimOutcome(rt, r, ProperBlock(rt, r.failing, n, locals, result, t), EvalBlock(rt, n, locals, result, s),
                       EvalBlock(rt, n, locals, result, t))
    decreases n, 1, |locals|
  {
    hide Keeps, Sim;
    if locals == [] {
      EvalSim(rt, r, n, result, s, t);
    } else {
      EvalSim(rt, r, n, locals[0].value, s, t);
      var x, y := Eval(rt, n, locals[0].value, s), Eval(rt, n, locals[0].value, t);
      if Both(rt, r, x, y) {
        EvalBlockSim(rt, r, n, locals[1..], result, Bind(locals[0].name, x.result.value, s), Bind(locals[0].name, y.result.value, t));
      }
    }
  }

  lemma {:induction false} ApplySim(rt: Runtime, r: Rules, n: nat, f: XVal, g: XVal, a: Option<XVal>, b: Option<XVal>)
    requires Keeps(rt, r) && Sim(rt, r, f, g) && SimArgument(rt, r, a, b) && Callable(r, f)
    ensures SimOutcome(rt, r, ProperApply(rt, r.failing, n, g, b), Apply(rt, n, f, a), Apply(rt, n, g, b))
    decreases n, 0, 0
  {
    if n == 0 { return; }
    match f
    case Embedded(future) => ApplyEmbeddedSim(rt, r, future, a, b);
    case Structure(_) =>
    case Closure(param, body, s) =>
      EvalSim(rt, r, n - 1, body, if a.Some? then Bind(param, a.value, s) else s, if b.Some? then Bind(param, b.value, g.scope) else g.scope);
    case Operator(op, fixed, s) => ExecSim(rt, r, n - 1, op, fixed, a, b, s, g.scope);
  }

  lemma {:induction false} ApplyEmbeddedSim(rt: Runtime, r: Rules, f: Result<Value>, a: Option<XVal>, b: Option<XVal>)
    requires Keeps(rt, r) && SimArgument(rt, r, a, b)
    ensures ApplyEmbedded(rt, f, a) == ApplyEmbedded(rt, f, b)
    ensures ApplyEmbedded(rt, f, a).Ok? ==> Sim(rt, r, ApplyEmbedded(rt, f, a).value, ApplyEmbedded(rt, f, a).value)
  {
    if a.Some? {
      EmbedSim(rt, r, a.value, b.value);
      var e := Embed(a.value);
      if e.Ok? && ChildCall(rt, f, e.value).Ok? {
        assert ChildCall(rt, f, e.value) == rt.inline(f.value.uri, f.value.fixed, e.value.value);
      }
    }
  }

  ghost predicate BothAsked(rt: Runtime, r: Rules, o: Outcome<(XVal, Value)>, p: Outcome<(XVal, Value)>) {
    && o.IsOk() && p.IsOk() && Sim(rt, r, o.result.value.0, p.result.value.0)
    && o.result.value.1 == p.result.value.1 && DataOk(rt, r, o.result.value.1)
  }

  lemma {:induction false} AskSim(rt: Runtime, r: Rules, n: nat, f: XVal, g: XVal, a: Option<XVal>, b: Option<XVal>)
    requires Keeps(rt, r) && Sim(rt, r, f, g) && SimArgument(rt, r, a, b) && Callable(r, f)
    ensures var o, p := Ask(rt, n, f, a), Ask(rt, n, g, b);
            && (Exact(r, ProperApply(rt, r.failing, n, g, b)) || OneWay(r) ==> o.IsOk() ==> BothAsked(rt, r, o, p))
            && (Exact(r, ProperApply(rt, r.failing, n, g, b)) ==> !o.IsOk() ==> p == o)
    decreases n, 0, 1
  {
    hide Keeps, Sim, Apply, ProperApply, Callable;
    ApplySim(rt, r, n, f, g, a, b);
    var x, y := Apply(rt, n, f, a), Apply(rt, n, g, b);
    if Both(rt, r, x, y) {
      EmbedSim(rt, r, x.result.value, y.result.value);
    }
  }

  lemma {:induction false} CreateSim(rt: Runtime, r: Rules, n: nat, v: Value, s: Scope, t: Scope)
    requires Keeps(rt, r) && CodeOk(rt, r, v) && SimScope(rt, r, s, t)
    ensures SimOutcome(rt, r, ProperEval(rt, r.failing, n, v, t), Create(rt, n, v, s), Create(rt, n, v, t))
    decreases n, 0, 1
  {
    hide Keeps, Sim, SimScope;
    EvalSim(rt, r, n, v, s, t);
  }

  ghost predicate AllCodeOk(rt: Runtime, r: Rules, vs: seq<Value>) {
    forall i :: 0 <= i < |vs| ==> CodeOk(rt, r, vs[i])
  }

  ghost predicate AllWritten(r: Rules, vs: seq<Value>) {
    r.written ==> forall i :: 0 <= i < |vs| ==> IsFunction(vs[i])
  }

  lemma {:induction false} ListOk(rt: Runtime, r: Rules, vs: seq<Value>)
    requires AllCodeOk(rt, r, vs) && AllWritten(r, vs) && vs != []
    ensures CodeOk(rt, r, vs[0]) && (r.written ==> IsFunction(vs[0]))
    ensures AllCodeOk(rt, r, vs[1..]) && AllWritten(r, vs[1..])
  {
    hide CodeOk, IsFunction;
  }

  lemma {:induction false} FixedOk(rt: Runtime, r: Rules, fixed: Option<Value>, index: nat)
    requires fixed.Some? ==> CodeOk(rt, r, fixed.value)
    ensures AllCodeOk(rt, r, FixedElements(fixed)) && CodeOk(rt, r, FixedAt(fixed, index))
  {
  }

  lemma {:induction false} ExecSim(
      rt: Runtime, r: Rules, n: nat, op: Op, fixed: Option<Value>, a: Option<XVal>, b: Option<XVal>, s: Scope, t: Scope)
    requires Keeps(rt, r) && SimScope(rt, r, s, t) && SimArgument(rt, r, a, b) && OperatorOk(rt, r, op, fixed)
    ensures SimOutcome(rt, r, ProperExec(rt, r.failing, n, op, fixed, b, t), Exec(rt, n, op, fixed, a, s), Exec(rt, n, op, fixed, b, t))
    decreases n, 4, 0
  {
    FixedOk(rt, r, fixed, 0);
    FixedOk(rt, r, fixed, 1);
    hide Keeps, Sim, SimScope, CodeOk, AllCodeOk;
    match op
    case SerialChain => if a.Some? { SerialSim(rt, r, n, FixedElements(fixed), a.value, b.value, s, t); }
    case BreakableChain => if a.Some? { BreakableSim(rt, r, n, FixedElements(fixed), a.value, b.value, s, t); }
    case Conditional => ExecConditionalSim(rt, r, n, fixed, a, b, s, t);
    case Fallback => FallbackSim(rt, r, n, FixedElements(fixed), a, b, Unavailable, s, t);
    case ParallelMap => if a.Some? && fixed.Some? { ExecMapSim(rt, r, n, fixed, a.value, b.value, s, t); }
    case Repeat => ExecRepeatSim(rt, r, n, fixed, a, b, s, t);
    case While => ExecWhileSim(rt, r, n, fixed, a, b, s, t);
    case RepeatedConditionalChain => ExecRoundsSim(rt, r, n, fixed, a, b, s, t);
  }

  lemma {:induction false} ExecConditionalSim(
      rt: Runtime, r: Rules, n: nat, fixed: Option<Value>, a: Option<XVal>, b: Option<XVal>, s: Scope, t: Scope)
    requires Keeps(rt, r) && SimScope(rt, r, s, t) && SimArgument(rt, r, a, b)
    requires CodeOk(rt, r, FixedAt(fixed, 0)) && CodeOk(rt, r, FixedAt(fixed, 1))
    ensures SimOutcome(rt, r, ProperExec(rt, r.failing, n, Conditional, fixed, b, t), Exec(rt, n, Conditional, fixed, a, s),
                       Exec(rt, n, Conditional, fixed, b, t))
    decreases n, 3, 0
  {
    hide Keeps, SimScope, CodeOk, Sim;
    if a.Some? {
      EmbedSim(rt, r, a.value, b.value);
      CreateSim(rt, r, n, FixedAt(fixed, 0), s, t);
      CreateSim(rt, r, n, FixedAt(fixed, 1), s, t);
    }
  }

  lemma {:induction false} ExecRepeatSim(
      rt: Runtime, r: Rules, n: nat, fixed: Option<Value>, a: Option<XVal>, b: Option<XVal>, s: Scope, t: Scope)
    requires Keeps(rt, r) && SimScope(rt, r, s, t) && SimArgument(rt, r, a, b)
    requires CodeOk(rt, r, FixedAt(fixed, 1)) && (r.written ==> IsFunction(FixedAt(fixed, 1)))
    ensures SimOutcome(rt, r, ProperExec(rt, r.failing, n, Repeat, fixed, b, t), Exec(rt, n, Repeat, fixed, a, s),
                       Exec(rt, n, Repeat, fixed, b, t))
    decreases n, 3, 0
  {
    hide Keeps, SimScope, CodeOk, Sim, Create;
    CreateSim(rt, r, n, FixedAt(fixed, 1), s, t);
    FunctionCallable(rt, r, n, FixedAt(fixed, 1), s);
    var f, g := Create(rt, n, FixedAt(fixed, 1), s), Create(rt, n, FixedAt(fixed, 1), t);
    if Both(rt, r, f, g) && a.Some? {
      RepeatSim(rt, r, n, f.result.value, g.result.value, Int32Of(FixedAt(fixed, 0)), a.value, b.value);
    }
  }

  lemma {:induction false} ExecWhileSim(
      rt: Runtime, r: Rules, n: nat, fixed: Option<Value>, a: Option<XVal>, b: Option<XVal>, s: Scope, t: Scope)
    requires Keeps(rt, r) && SimScope(rt, r, s, t) && SimArgument(rt, r, a, b)
    requires CodeOk(rt, r, FixedAt(fixed, 0)) && CodeOk(rt, r, FixedAt(fixed, 1))
    requires r.written ==> IsFunction(FixedAt(fixed, 0)) && IsFunction(FixedAt(fixed, 1))
    ensures SimOutcome(rt, r, ProperExec(rt, r.failing, n, While, fixed, b, t), Exec(rt, n, While, fixed, a, s),
                       Exec(rt, n, While, fixed, b, t))
    decreases n, 3, 0
  {
    hide Keeps, SimScope, CodeOk, Sim, Create, WhileFrom, ProperWhile, ProperEval, Callable;
    CreateSim(rt, r, n, FixedAt(fixed, 0), s, t);
    CreateSim(rt, r, n, FixedAt(fixed, 1), s, t);
    FunctionCallable(rt, r, n, FixedAt(fixed, 0), s);
    FunctionCallable(rt, r, n, FixedAt(fixed, 1), s);
    var c, d := Create(rt, n, FixedAt(fixed, 0), s), Create(rt, n, FixedAt(fixed, 0), t);
    var f, g := Create(rt, n, FixedAt(fixed, 1), s), Create(rt, n, FixedAt(fixed, 1), t);
    if Both(rt, r, c, d) && Both(rt, r, f, g) && a.Some? {
      WhileSim(rt, r, n, c.result.value, d.result.value, f.result.value, g.result.value, a.value, b.value);
    }
  }

  /** A map whose function has been created as `f`. */
  function MapOf(rt: Runtime, n: nat, f: XVal, ds: seq<Value>, s: Scope): Outcome<XVal> {
    var ys := MapFrom(rt, n, f, ds, s);
    if ys.IsOk() then Done(Ok(Structure(ys.result.value))) else ys.PropagateFailure()
  }

  lemma {:induction false} ExecMapTurn(rt: Runtime, strict: bool, n: nat, fixed: Option<Value>, a: XVal, s: Scope)
    requires fixed.Some?
    ensures var o := Exec(rt, n, ParallelMap, fixed, Some(a), s);
            if Materialize(a).Err? then o == Done(Err(Materialize(a).code))
            else
              var f := Create(rt, n, fixed.value, s);
              o == if f.IsOk() then MapOf(rt, n, f.result.value, ElementsOf(Materialize(a).value), s) else f
    ensures Materialize(a).Ok? && ProperExec(rt, strict, n, ParallelMap, fixed, Some(a), s) ==>
              var f := Create(rt, n, fixed.value, s);
              && ProperEval(rt, strict, n, fixed.value, s)
              && (f.IsOk() ==> ProperMap(rt, strict, n, f.result.value, ElementsOf(Materialize(a).value), s))
  {
    hide Create, MapFrom, Materialize, ElementsOf, ProperEval, ProperMap;
  }

  lemma {:induction false} MapOfSim(rt: Runtime, r: Rules, n: nat, f: XVal, g: XVal, ds: seq<Value>, s: Scope, t: Scope)
    requires Keeps(rt, r) && SimScope(rt, r, s, t) && Sim(rt, r, f, g) && Callable(r, f) && AllCodeOk(rt, r, ds)
    ensures SimOutcome(rt, r, ProperMap(rt, r.failing, n, g, ds, t), MapOf(rt, n, f, ds, s), MapOf(rt, n, g, ds, t))
    decreases n, 1, |ds| + 1
  {
    hide Keeps, SimScope, Sim, SimAll, Callable, AllCodeOk, MapFrom, ProperMap;
    MapSim(rt, r, n, f, g, ds, s, t);
    var ys, zs := MapFrom(rt, n, f, ds, s), MapFrom(rt, n, g, ds, t);
    if BothAll(rt, r, ys, zs) {
      StructureSim(rt, r, ys.result.value, zs.result.value);
    }
  }

  lemma PayloadOk(rt: Runtime, r: Rules, d: Value)
    requires r.reentry && DataOk(rt, r, d)
    ensures AllCodeOk(rt, r, ElementsOf(d))
  {
  }

  lemma {:induction false} ExecMapSim(
      rt: Runtime, r: Rules, n: nat, fixed: Option<Value>, a: XVal, b: XVal, s: Scope, t: Scope)
    requires Keeps(rt, r) && r.reentry && SimScope(rt, r, s, t) && Sim(rt, r, a, b)
    requires fixed.Some? && CodeOk(rt, r, fixed.value) && (r.written ==> IsFunction(fixed.value))
    ensures SimOutcome(rt, r, ProperExec(rt, r.failing, n, ParallelMap, fixed, Some(b), t), Exec(rt, n, ParallelMap, fixed, Some(a), s),
                       Exec(rt, n, ParallelMap, fixed, Some(b), t))
    decreases n, 3, 0
  {
    hide Keeps, SimScope, Sim, Materialize, Create, MapOf, ProperMap, ProperEval, ElementsOf, CodeOk, DataOk, Callable, Exec, ProperExec;
    EmbedSim(rt, r, a, b);
    ExecMapTurn(rt, r.failing, n, fixed, a, s);
    ExecMapTurn(rt, r.failing, n, fixed, b, t);
    if Materialize(a).Ok? {
      var ds := ElementsOf(Materialize(a).value);
      PayloadOk(rt, r, Materialize(a).value);
      CreateSim(rt, r, n, fixed.value, s, t);
      FunctionCallable(rt, r, n, fixed.value, s);
      var f, g := Create(rt, n, fixed.value, s), Create(rt, n, fixed.value, t);
      if Both(rt, r, f, g) {
        MapOfSim(rt, r, n, f.result.value, g.result.value, ds, s, t);
      }
    }
  }

  lemma {:induction false} ExecRoundsSim(
      rt: Runtime, r: Rules, n: nat, fixed: Option<Value>, a: Option<XVal>, b: Option<XVal>, s: Scope, t: Scope)
    requires Keeps(rt, r) && SimScope(rt, r, s, t) && SimArgument(rt, r, a, b)
    requires AllCodeOk(rt, r, FixedElements(fixed)) && OpAllowed(r, RepeatedConditionalChain, fixed)
    ensures SimOutcome(rt, r, ProperExec(rt, r.failing, n, RepeatedConditionalChain, fixed, b, t),
                       Exec(rt, n, RepeatedConditionalChain, fixed, a, s), Exec(rt, n, RepeatedConditionalChain, fixed, b, t))
    decreases n, 3, 0
  {
    hide Keeps, Sim, SimScope, CodeOk, CreateAll, RoundsFrom, ProperAll, ProperRounds;
    var params := FixedElements(fixed);
    var bodies := if params == [] then [] else params[1..];
    assert AllWritten(r, bodies);
    CreateAllSim(rt, r, n, bodies, s, t);
    var fs, gs := CreateAll(rt, n, bodies, s), CreateAll(rt, n, bodies, t);
    if BothAll(rt, r, fs, gs) && a.Some? {
      RoundsSim(rt, r, n, Int32Of(FixedAt(fixed, 0)), fs.result.value, gs.result.value, a.value, b.value, s, t);
    }
  }

  ghost predicate AllCallable(r: Rules, fs: seq<XVal>) {
    forall i :: 0 <= i < |fs| ==> Callable(r, fs[i])
  }

  lemma {:induction false} CreateAllSim(rt: Runtime, r: Rules, n: nat, vs: seq<Value>, s: Scope, t: Scope)
    requires Keeps(rt, r) && SimScope(rt, r, s, t) && AllCodeOk(rt, r, vs) && AllWritten(r, vs)
    ensures SimOutcomes(rt, r, ProperAll(rt, r.failing, n, vs, t), CreateAll(rt, n, vs, s), CreateAll(rt, n, vs, t))
    ensures CreateAll(rt, n, vs, s).IsOk() ==> AllCallable(r, CreateAll(rt, n, vs, s).result.value)
    decreases n, 1, |vs|
  {
    hide Keeps, Sim, SimScope, CodeOk, ProperEval, Callable;
    if vs != [] {
      CreateSim(rt, r, n, vs[0], s, t);
      FunctionCallable(rt, r, n, vs[0], s);
      CreateAllSim(rt, r, n, vs[1..], s, t);
    }
  }

  /** A chain whose first function has been created as `f`. */
  function SerialCall(rt: Runtime, n: nat, f: XVal, rest: seq<Value>, x: XVal, s: Scope): Outcome<XVal> {
    var y := Apply(rt, n, f, Some(x));
    if y.IsOk() then SerialFrom(rt, n, rest, y.result.value, s) else y
  }

  ghost predicate ProperSerialCall(rt: Runtime, strict: bool, n: nat, f: XVal, rest: seq<Value>, x: XVal, s: Scope) {
    var y := Apply(rt, n, f, Some(x));
    ProperApply(rt, strict, n, f, Some(x)) && (y.IsOk() ==> ProperSerial(rt, strict, n, rest, y.result.value, s))
  }

  lemma {:induction false} SerialTurn(rt: Runtime, strict: bool, n: nat, fns: seq<Value>, x: XVal, s: Scope)
    requires fns != []
    ensures var f := Create(rt, n, fns[0], s);
            && (!f.IsOk() ==> SerialFrom(rt, n, fns, x, s) == f)
            && (f.IsOk() ==> SerialFrom(rt, n, fns, x, s) == SerialCall(rt, n, f.result.value, fns[1..], x, s))
    ensures ProperSerial(rt, strict, n, fns, x, s) ==>
              var f := Create(rt, n, fns[0], s);
              && ProperEval(rt, strict, n, fns[0], s)
              && (f.IsOk() ==> ProperSerialCall(rt, strict, n, f.result.value, fns[1..], x, s))
  {
    hide Create, Apply, ProperEval, ProperApply;
  }

  lemma {:induction false} SerialSim(rt: Runtime, r: Rules, n: nat, fns: seq<Value>, x: XVal, y: XVal, s: Scope, t: Scope)
    requires Keeps(rt, r) && SimScope(rt, r, s, t) && Sim(rt, r, x, y) && AllCodeOk(rt, r, fns) && AllWritten(r, fns)
    ensures SimOutcome(rt, r, ProperSerial(rt, r.failing, n, fns, y, t), SerialFrom(rt, n, fns, x, s), SerialFrom(rt, n, fns, y, t))
    decreases n, 1, |fns|
  {
    hide Keeps, Sim, SimScope, CodeOk, Create, Apply, ProperEval, ProperApply, Callable;
    if fns != [] {
      ListOk(rt, r, fns);
      SerialTurn(rt, r.failing, n, fns, x, s);
      SerialTurn(rt, r.failing, n, fns, y, t);
      hide AllCodeOk, AllWritten, IsFunction, SerialFrom, ProperSerial, SerialCall, ProperSerialCall;
      CreateSim(rt, r, n, fns[0], s, t);
      FunctionCallable(rt, r, n, fns[0], s);
      var f, g := Create(rt, n, fns[0], s), Create(rt, n, fns[0], t);
      if Both(rt, r, f, g) {
        SerialCallSim(rt, r, n, f.result.value, g.result.value, fns[1..], x, y, s, t);
      }
    }
  }

  lemma {:induction false} SerialCallSim(
      rt: Runtime, r: Rules, n: nat, f: XVal, g: XVal, rest: seq<Value>, x: XVal, y: XVal, s: Scope, t: Scope)
    requires Keeps(rt, r) && SimScope(rt, r, s, t) && Sim(rt, r, x, y) && AllCodeOk(rt, r, rest) && AllWritten(r, rest)
    requires Sim(rt, r, f, g) && Callable(r, f)
    ensures SimOutcome(rt, r, ProperSerialCall(rt, r.failing, n, g, rest, y, t), SerialCall(rt, n, f, rest, x, s), SerialCall(rt, n, g, rest, y, t))
    decreases n, 1, |rest| + 1, 0
  {
    hide Keeps, Sim, SimScope, AllCodeOk, AllWritten, Apply, ProperApply, Callable, SerialFrom, ProperSerial;
    ApplySim(rt, r, n, f, g, Some(x), Some(y));
    var x', y' := Apply(rt, n, f, Some(x)), Apply(rt, n, g, Some(y));
    if Both(rt, r, x', y') {
      SerialSim(rt, r, n, rest, x'.result.value, y'.result.value, s, t);
    }
  }

  /** A breakable chain whose first function has been created as `f`. */
  function BreakableCall(rt: Runtime, n: nat, f: XVal, rest: seq<Value>, x: XVal, s: Scope): Outcome<XVal> {
    var y := Ask(rt, n, f, Some(x));
    if !y.IsOk() then y.PropagateFailure()
    else if BooleanOf(y.result.value.1) then Done(Ok(x))
    else BreakableFrom(rt, n, rest, if IsBoolean(y.result.value.1) then x else y.result.value.0, s)
  }

  ghost predicate ProperBreakableCall(rt: Runtime, strict: bool, n: nat, f: XVal, rest: seq<Value>, x: XVal, s: Scope) {
    var y := Ask(rt, n, f, Some(x));
    && ProperApply(rt, strict, n, f, Some(x))
    && (y.IsOk() && !BooleanOf(y.result.value.1) ==>
          ProperBreakable(rt, strict, n, rest, if IsBoolean(y.result.value.1) then x else y.result.value.0, s))
  }

  lemma {:induction false} BreakableTurn(rt: Runtime, strict: bool, n: nat, fns: seq<Value>, x: XVal, s: Scope)
    requires fns != []
    ensures var f := Create(rt, n, fns[0], s);
            && (!f.IsOk() ==> BreakableFrom(rt, n, fns, x, s) == f)
            && (f.IsOk() ==> BreakableFrom(rt, n, fns, x, s) == BreakableCall(rt, n, f.result.value, fns[1..], x, s))
    ensures ProperBreakable(rt, strict, n, fns, x, s) ==>
              var f := Create(rt, n, fns[0], s);
              && ProperEval(rt, strict, n, fns[0], s)
              && (f.IsOk() ==> ProperBreakableCall(rt, strict, n, f.result.value, fns[1..], x, s))
  {
    hide Create, Ask, ProperEval, ProperApply;
  }

  lemma {:induction false} BreakableSim(rt: Runtime, r: Rules, n: nat, fns: seq<Value>, x: XVal, y: XVal, s: Scope, t: Scope)
    requires Keeps(rt, r) && SimScope(rt, r, s, t) && Sim(rt, r, x, y) && AllCodeOk(rt, r, fns) && AllWritten(r, fns)
    ensures SimOutcome(rt, r, ProperBreakable(rt, r.failing, n, fns, y, t), BreakableFrom(rt, n, fns, x, s), BreakableFrom(rt, n, fns, y, t))
    decreases n, 1, |fns|
  {
    hide Keeps, Sim, SimScope, CodeOk, Ask, Create, Apply, ProperEval, ProperApply, Callable;
    if fns != [] {
      ListOk(rt, r, fns);
      BreakableTurn(rt, r.failing, n, fns, x, s);
      BreakableTurn(rt, r.failing, n, fns, y, t);
      hide AllCodeOk, AllWritten, IsFunction, BreakableFrom, ProperBreakable, BreakableCall, ProperBreakableCall;
      CreateSim(rt, r, n, fns[0], s, t);
      FunctionCallable(rt, r, n, fns[0], s);
      var f, g := Create(rt, n, fns[0], s), Create(rt, n, fns[0], t);
      if Both(rt, r, f, g) {
        BreakableCallSim(rt, r, n, f.result.value, g.result.value, fns[1..], x, y, s, t);
      }
    }
  }

  lemma {:induction false} BreakableCallSim(
      rt: Runtime, r: Rules, n: nat, f: XVal, g: XVal, rest: seq<Value>, x: XVal, y: XVal, s: Scope, t: Scope)
    requires Keeps(rt, r) && SimScope(rt, r, s, t) && Sim(rt, r, x, y) && AllCodeOk(rt, r, rest) && AllWritten(r, rest)
    requires Sim(rt, r, f, g) && Callable(r, f)
    ensures SimOutcome(rt, r, ProperBreakableCall(rt, r.failing, n, g, rest, y, t), BreakableCall(rt, n, f, rest, x, s),
                       BreakableCall(rt, n, g, rest, y, t))
    decreases n, 1, |rest| + 1, 0
  {
    hide Keeps, Sim, SimScope, AllCodeOk, AllWritten, Ask, ProperApply, Callable, BreakableFrom, ProperBreakable;
    AskSim(rt, r, n, f, g, Some(x), Some(y));
    var p, q := Ask(rt, n, f, Some(x)), Ask(rt, n, g, Some(y));
    if BothAsked(rt, r, p, q) {
      if IsBoolean(p.result.value.1) {
        BreakableSim(rt, r, n, rest, x, y, s, t);
      } else {
        BreakableSim(rt, r, n, rest, p.result.value.0, q.result.value.0, s, t);
      }
    }
  }

  lemma {:induction false} CandidateSim(
      rt: Runtime, r: Rules, n: nat, v: Value, a: Option<XVal>, b: Option<XVal>, s: Scope, t: Scope)
    requires Keeps(rt, r) && SimScope(rt, r, s, t) && SimArgument(rt, r, a, b) && CodeOk(rt, r, v)
    requires r.written ==> IsFunction(v)
    ensures var g := Create(rt, n, v, t);
            var proper := ProperEval(rt, r.failing, n, v, t) && (g.IsOk() ==> ProperApply(rt, r.failing, n, g.result.value, b));
            SimOutcome(rt, r, proper, Candidate(rt, n, v, a, s), Candidate(rt, n, v, b, t))
    decreases n, 1, 0
  {
    hide Keeps, Sim, SimScope, CodeOk, Ask, Create, Apply, ProperEval, ProperApply, Callable, Candidate;
    CandidateTurn(rt, n, v, a, s);
    CandidateTurn(rt, n, v, b, t);
    CreateSim(rt, r, n, v, s, t);
    FunctionCallable(rt, r, n, v, s);
    var f, g := Create(rt, n, v, s), Create(rt, n, v, t);
    if Both(rt, r, f, g) {
      AskSim(rt, r, n, f.result.value, g.result.value, a, b);
    }
  }

  lemma {:induction false} CandidateTurn(rt: Runtime, n: nat, v: Value, a: Option<XVal>, s: Scope)
    ensures var f := Create(rt, n, v, s);
            if !f.IsOk() then Candidate(rt, n, v, a, s) == f
            else
              var y := Ask(rt, n, f.result.value, a);
              Candidate(rt, n, v, a, s) == if y.IsOk() then Done(Ok(y.result.value.0)) else y.PropagateFailure()
  {
    hide Create, Ask;
  }

  /** Candidates fail together where the two runs agree in everything; otherwise nothing is
      claimed of code with `Fallback`. */
  lemma {:induction false} FallbackSim(
      rt: Runtime, r: Rules, n: nat, fns: seq<Value>, a: Option<XVal>, b: Option<XVal>, error: Code, s: Scope, t: Scope)
    requires Keeps(rt, r) && SimScope(rt, r, s, t) && SimArgument(rt, r, a, b) && AllCodeOk(rt, r, fns) && AllWritten(r, fns)
    requires r.written || r.fallback
    ensures SimOutcome(rt, r, ProperFallback(rt, r.failing, n, fns, b, t), FallbackFrom(rt, n, fns, a, error, s),
                       FallbackFrom(rt, n, fns, b, error, t))
    decreases n, 2, |fns|
  {
    hide Keeps, Sim, SimScope, CodeOk, Candidate, Create, ProperEval, ProperApply;
    if fns != [] {
      CandidateSim(rt, r, n, fns[0], a, b, s, t);
      var x, y := Candidate(rt, n, fns[0], a, s), Candidate(rt, n, fns[0], b, t);
      if x == y && x.Done? && x.result.Err? {
        FallbackSim(rt, r, n, fns[1..], a, b, x.result.code, s, t);
      }
    }
  }

  /** A map whose first element has been created as `x`. */
  function MapCall(rt: Runtime, n: nat, f: XVal, x: XVal, rest: seq<Value>, s: Scope): Outcome<seq<XVal>> {
    var y := Apply(rt, n, f, Some(x));
    if !y.IsOk() then y.PropagateFailure()
    else
      var ys := MapFrom(rt, n, f, rest, s);
      if ys.IsOk() then Done(Ok([y.result.value] + ys.result.value)) else ys
  }

  ghost predicate ProperMapCall(rt: Runtime, strict: bool, n: nat, f: XVal, x: XVal, rest: seq<Value>, s: Scope) {
    ProperApply(rt, strict, n, f, Some(x)) && (Apply(rt, n, f, Some(x)).IsOk() ==> ProperMap(rt, strict, n, f, rest, s))
  }

  lemma {:induction false} MapTurn(rt: Runtime, strict: bool, n: nat, f: XVal, ds: seq<Value>, s: Scope)
    requires ds != []
    ensures var x := Create(rt, n, ds[0], s);
            && (!x.IsOk() ==> MapFrom(rt, n, f, ds, s) == x.PropagateFailure())
            && (x.IsOk() ==> MapFrom(rt, n, f, ds, s) == MapCall(rt, n, f, x.result.value, ds[1..], s))
    ensures ProperMap(rt, strict, n, f, ds, s) ==>
              var x := Create(rt, n, ds[0], s);
              ProperEval(rt, strict, n, ds[0], s) && (x.IsOk() ==> ProperMapCall(rt, strict, n, f, x.result.value, ds[1..], s))
  {
    hide Create, Apply, ProperEval, ProperApply;
  }

  lemma {:induction false} MapSim(rt: Runtime, r: Rules, n: nat, f: XVal, g: XVal, ds: seq<Value>, s: Scope, t: Scope)
    requires Keeps(rt, r) && SimScope(rt, r, s, t) && Sim(rt, r, f, g) && Callable(r, f) && AllCodeOk(rt, r, ds)
    ensures SimOutcomes(rt, r, ProperMap(rt, r.failing, n, g, ds, t), MapFrom(rt, n, f, ds, s), MapFrom(rt, n, g, ds, t))
    decreases n, 1, |ds|
  {
    hide Keeps, Sim, SimScope, CodeOk, Create, ProperEval, Callable;
    if ds == [] {
      SimAllEmpty(rt, r);
    } else {
      assert CodeOk(rt, r, ds[0]) && AllCodeOk(rt, r, ds[1..]);
      MapTurn(rt, r.failing, n, f, ds, s);
      MapTurn(rt, r.failing, n, g, ds, t);
      hide AllCodeOk, MapFrom, ProperMap, MapCall, ProperMapCall, SimAll;
      CreateSim(rt, r, n, ds[0], s, t);
      var x, y := Create(rt, n, ds[0], s), Create(rt, n, ds[0], t);
      if Both(rt, r, x, y) {
        MapCallSim(rt, r, n, f, g, x.result.value, y.result.value, ds[1..], s, t);
      }
    }
  }

  lemma {:induction false} MapCallSim(
      rt: Runtime, r: Rules, n: nat, f: XVal, g: XVal, x: XVal, y: XVal, rest: seq<Value>, s: Scope, t: Scope)
    requires Keeps(rt, r) && SimScope(rt, r, s, t) && Sim(rt, r, f, g) && Callable(r, f) && AllCodeOk(rt, r, rest)
    requires Sim(rt, r, x, y)
    ensures SimOutcomes(rt, r, ProperMapCall(rt, r.failing, n, g, y, rest, t), MapCall(rt, n, f, x, rest, s), MapCall(rt, n, g, y, rest, t))
    decreases n, 1, |rest| + 1, 0
  {
    hide Keeps, Sim, SimScope, SimAll, AllCodeOk, Apply, ProperApply, Callable, MapFrom, ProperMap;
    ApplySim(rt, r, n, f, g, Some(x), Some(y));
    var p, q := Apply(rt, n, f, Some(x)), Apply(rt, n, g, Some(y));
    if Both(rt, r, p, q) {
      MapSim(rt, r, n, f, g, rest, s, t);
      var ps, qs := MapFrom(rt, n, f, rest, s), MapFrom(rt, n, g, rest, t);
      if BothAll(rt, r, ps, qs) {
        SimAllCons(rt, r, p.result.value, q.result.value, ps.result.value, qs.result.value);
      }
    }
  }

  lemma {:induction false} RepeatSim(rt: Runtime, r: Rules, n: nat, f: XVal, g: XVal, k: int, x: XVal, y: XVal)
    requires Keeps(rt, r) && Sim(rt, r, f, g) && Sim(rt, r, x, y) && Callable(r, f)
    ensures SimOutcome(rt, r, ProperRepeat(rt, r.failing, n, g, k, y), RepeatFrom(rt, n, f, k, x), RepeatFrom(rt, n, g, k, y))
    decreases n, 1, if k < 0 then 0 else k
  {
    hide Keeps, Sim, Apply, ProperApply, Callable;
    if k > 0 {
      ApplySim(rt, r, n, f, g, Some(x), Some(y));
      var x', y' := Apply(rt, n, f, Some(x)), Apply(rt, n, g, Some(y));
      if Both(rt, r, x', y') {
        RepeatSim(rt, r, n, f, g, k - 1, x'.result.value, y'.result.value);
      }
    }
  }

  /** One turn of the loop. */
  lemma {:induction false} WhileTurn(rt: Runtime, n: nat, c: XVal, f: XVal, x: XVal)
    requires n > 0
    ensures var p := Ask(rt, n - 1, c, Some(x));
            var o := WhileFrom(rt, n, c, f, x);
            && (!p.IsOk() ==> o == p.PropagateFailure())
            && (p.IsOk() && !BooleanOf(p.result.value.1) ==> o == if IsBoolean(p.result.value.1) then Done(Ok(x)) else Done(Err(InvalidArgument)))
            && (p.IsOk() && BooleanOf(p.result.value.1) ==>
                  o == AfterBody(rt, n - 1, c, f, x))
  {
    hide Ask, Apply;
  }

  lemma {:induction false} ProperTurn(rt: Runtime, strict: bool, n: nat, c: XVal, f: XVal, x: XVal)
    requires n > 0 && ProperWhile(rt, strict, n, c, f, x)
    ensures ProperApply(rt, strict, n - 1, c, Some(x))
    ensures var p := Ask(rt, n - 1, c, Some(x));
            p.IsOk() && BooleanOf(p.result.value.1) ==> BodyProper(rt, strict, n - 1, c, f, x)
  {
    hide Ask, Apply, ProperApply;
  }

  lemma {:induction false} WhileSim(rt: Runtime, r: Rules, n: nat, c: XVal, d: XVal, f: XVal, g: XVal, x: XVal, y: XVal)
    requires Keeps(rt, r) && Sim(rt, r, c, d) && Sim(rt, r, f, g) && Sim(rt, r, x, y) && Callable(r, c) && Callable(r, f)
    ensures SimOutcome(rt, r, ProperWhile(rt, r.failing, n, d, g, y), WhileFrom(rt, n, c, f, x), WhileFrom(rt, n, d, g, y))
    decreases n, 1, 0
  {
    hide Keeps, Sim, Ask, Callable, WhileFrom, ProperWhile, AfterBody, BodyProper, IsBoolean, BooleanOf, ProperApply;
    if n == 0 {
      WhileNoFuel(rt, c, f, x);
      WhileNoFuel(rt, d, g, y);
    } else {
      WhileTurn(rt, n, c, f, x);
      WhileTurn(rt, n, d, g, y);
      AskSim(rt, r, n - 1, c, d, Some(x), Some(y));
      if ProperWhile(rt, r.failing, n, d, g, y) {
        ProperTurn(rt, r.failing, n, d, g, y);
      }
      hide DataOk;
      WhileBodySim(rt, r, n - 1, c, d, f, g, x, y);
    }
  }

  /** The rest of a turn, when the condition holds. */
  ghost predicate BodyProper(rt: Runtime, strict: bool, n: nat, c: XVal, f: XVal, x: XVal) {
    var y := Apply(rt, n, f, Some(x));
    ProperApply(rt, strict, n, f, Some(x)) && (y.IsOk() ==> ProperWhile(rt, strict, n, c, f, y.result.value))
  }

  function AfterBody(rt: Runtime, n: nat, c: XVal, f: XVal, x: XVal): Outcome<XVal> {
    var y := Apply(rt, n, f, Some(x));
    if y.IsOk() then WhileFrom(rt, n, c, f, y.result.value) else y
  }

  lemma {:induction false} WhileBodySim(
      rt: Runtime, r: Rules, n: nat, c: XVal, d: XVal, f: XVal, g: XVal, x: XVal, y: XVal)
    requires Keeps(rt, r) && Sim(rt, r, c, d) && Sim(rt, r, f, g) && Sim(rt, r, x, y) && Callable(r, c) && Callable(r, f)
    ensures SimOutcome(rt, r, BodyProper(rt, r.failing, n, d, g, y), AfterBody(rt, n, c, f, x), AfterBody(rt, n, d, g, y))
    decreases n, 2, 0
  {
    hide Keeps, Sim, Apply, ProperApply, Callable, WhileFrom, ProperWhile;
    ApplySim(rt, r, n, f, g, Some(x), Some(y));
    var x', y' := Apply(rt, n, f, Some(x)), Apply(rt, n, g, Some(y));
    if Both(rt, r, x', y') {
      WhileSim(rt, r, n, c, d, f, g, x'.result.value, y'.result.value);
    }
  }

  /** The first function of a pass, and the others. */
  lemma {:induction false} RoundTurn(rt: Runtime, n: nat, fs: seq<XVal>, x: XVal, s: Scope)
    requires fs != []
    ensures var p := Ask(rt, n, fs[0], Some(x));
            var o := Round(rt, n, fs, x, s);
            && (!p.IsOk() ==> o == p.PropagateFailure())
            && (p.IsOk() ==>
                  var d := p.result.value.1;
                  if BooleanOf(d) then o == Done(Ok((x, true)))
                  else if IsBoolean(d) then o == Round(rt, n, fs[1..], x, s)
                  else
                    var state := Create(rt, n, d, s);
                    && (!state.IsOk() ==> o == state.PropagateFailure())
                    && (state.IsOk() ==> o == Round(rt, n, fs[1..], state.result.value, s)))
  {
    hide Create, Ask;
  }

  ghost predicate BothRound(rt: Runtime, r: Rules, o: Outcome<(XVal, bool)>, p: Outcome<(XVal, bool)>) {
    o.IsOk() && p.IsOk() && o.result.value.1 == p.result.value.1 && Sim(rt, r, o.result.value.0, p.result.value.0)
  }

  ghost predicate SimRound(rt: Runtime, r: Rules, proper: bool, o: Outcome<(XVal, bool)>, p: Outcome<(XVal, bool)>) {
    && (Exact(r, proper) || OneWay(r) ==> o.IsOk() ==> BothRound(rt, r, o, p))
    && (Exact(r, proper) ==> !o.IsOk() ==> p == o)
  }

  lemma {:induction false} RoundSim(
      rt: Runtime, r: Rules, n: nat, fs: seq<XVal>, gs: seq<XVal>, x: XVal, y: XVal, s: Scope, t: Scope)
    requires Keeps(rt, r) && r.reentry && SimScope(rt, r, s, t) && SimAll(rt, r, fs, gs) && Sim(rt, r, x, y) && AllCallable(r, fs)
    ensures SimRound(rt, r, ProperRound(rt, r.failing, n, gs, y, t), Round(rt, n, fs, x, s), Round(rt, n, gs, y, t))
    decreases n, 1, |fs|
  {
    hide Keeps, Sim, SimScope, CodeOk, Ask, Create, Apply, ProperEval, ProperApply;
    if fs != [] {
      RoundTurn(rt, n, fs, x, s);
      RoundTurn(rt, n, gs, y, t);
      hide Round;
      AskSim(rt, r, n, fs[0], gs[0], Some(x), Some(y));
      var p, q := Ask(rt, n, fs[0], Some(x)), Ask(rt, n, gs[0], Some(y));
      if BothAsked(rt, r, p, q) {
        var d := p.result.value.1;
        if IsBoolean(d) {
          RoundSim(rt, r, n, fs[1..], gs[1..], x, y, s, t);
        } else {
          CreateSim(rt, r, n, d, s, t);
          var x', y' := Create(rt, n, d, s), Create(rt, n, d, t);
          if Both(rt, r, x', y') {
            RoundSim(rt, r, n, fs[1..], gs[1..], x'.result.value, y'.result.value, s, t);
          }
        }
      }
    }
  }

  lemma {:induction false} RoundsSim(
      rt: Runtime, r: Rules, n: nat, k: int, fs: seq<XVal>, gs: seq<XVal>, x: XVal, y: XVal, s: Scope, t: Scope)
    requires Keeps(rt, r) && r.reentry && SimScope(rt, r, s, t) && SimAll(rt, r, fs, gs) && Sim(rt, r, x, y) && AllCallable(r, fs)
    ensures SimOutcome(rt, r, ProperRounds(rt, r.failing, n, k, gs, y, t), RoundsFrom(rt, n, k, fs, x, s), RoundsFrom(rt, n, k, gs, y, t))
    decreases n, 2, if k < 0 then 0 else k
  {
    hide Keeps, Sim, SimScope, SimAll, AllCallable, Round, ProperRound;
    if k > 0 {
      RoundSim(rt, r, n, fs, gs, x, y, s, t);
      var p, q := Round(rt, n, fs, x, s), Round(rt, n, gs, y, t);
      if BothRound(rt, r, p, q) && !p.result.value.1 {
        RoundsSim(rt, r, n, k - 1, fs, gs, p.result.value.0, q.result.value.0, s, t);
      }
    }
  }

  // ----- both directions -----

  /** What a caller sees of evaluating `v` and materialising the result. */
  function Observed(rt: Runtime, n: nat, v: Value, s: Scope): Outcome<Value> {
    var x :- Eval(rt, n, v, s);
    Done(Materialize(x))
  }

  /** A caller cannot tell the two forms apart, `Fallback` and all: for every bound they give
      the same payload, the same error, or run out of fuel together. */
  lemma {:induction false} FormsAgree(rt: Runtime, r: Rules, n: nat, v: Value, s: Scope, t: Scope)
    requires Keeps(rt, r) && CodeOk(rt, r, v) && SimScope(rt, r, s, t)
    requires r.written || ProperEval(rt, r.failing, n, v, t)
    ensures Observed(rt, n, v, s) == Observed(rt, n, v, t)
  {
    hide Keeps, CodeOk, SimScope, Sim, Eval, ProperEval, Materialize;
    EvalSim(rt, r, n, v, s, t);
    var o, p := Eval(rt, n, v, s), Eval(rt, n, v, t);
    if o.IsOk() {
      EmbedSim(rt, r, o.result.value, p.result.value);
    }
  }
}
