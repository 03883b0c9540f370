/** What a traced function computes, said on values and without any IR of the tracer's own. */
module TraceReference {
  import opened Common
  import opened Ir
  import opened Evaluator
  import opened Fuel
  import opened EvaluationRules
  import opened EvaluationExact
  import opened Relevance
  import opened Tracing
  import opened TraceTrees
  import opened TraceMeaning
  import opened TraceTheorem

  // ----- the reference semantics -----

  /** `y` is member `i` of the argument `x` of a function with several parameters. */
  ghost predicate MemberOf(x: XVal, i: nat, y: XVal) {
    match x
    case Structure(xs) => i < |xs| && y == xs[i]
    case Embedded(Ok(Struct(ds, _))) => y == Embedded(if i < |ds| then Ok(ds[i]) else Err(OutOfRange))
    case Embedded(Ok(_)) => y == Embedded(Err(InvalidArgument))
    case Embedded(Err(_)) => y == x
    case Closure(_, _, _) => false
    case Operator(_, _, _) => false
  }

  /** The operand `o` is `y`, where the function was called on `x`, its own IR sees `s` and its
      earlier steps gave `ys`. */
  ghost predicate OperandIs(rt: Runtime, p: Program, x: XVal, s: Scope, ys: seq<XVal>, o: Operand, y: XVal) {
    match o
    case Param(i) => if p.arity == 1 then y == x else MemberOf(x, i, y)
    case Earlier(j) => j < |ys| && y == ys[j]
    case Own(ir) => Evaluates(rt, ir, s, Ok(y))
  }

  ghost predicate OperandsAre(rt: Runtime, p: Program, x: XVal, s: Scope, ys: seq<XVal>, os: seq<Operand>, zs: seq<XVal>) {
    |zs| == |os| && forall i :: 0 <= i < |os| ==> OperandIs(rt, p, x, s, ys, os[i], zs[i])
  }

  /** What a function is called on: its argument, or the struct of its arguments in order. */
  function Passed(zs: seq<XVal>): XVal
    requires |zs| > 0
  {
    match |zs|
    case 1 => zs[0]
    case _ => Structure(zs)
  }

  ghost predicate CallIs(rt: Runtime, f: XVal, zs: seq<XVal>, y: XVal) {
    |zs| > 0 && Applies(rt, f, Some(Passed(zs)), Ok(y))
  }

  ghost predicate StepIs(rt: Runtime, p: Program, x: XVal, s: Scope, ys: seq<XVal>, c: Step, y: XVal) {
    match c
    case EmbedStep(value) => OperandIs(rt, p, x, s, ys, value, y)
    case CallStep(fn, args) =>
      exists f, zs :: OperandIs(rt, p, x, s, ys, fn, f) && OperandsAre(rt, p, x, s, ys, args, zs) && CallIs(rt, f, zs, y)
  }

  /** The steps give `ys`, one after the other. */
  ghost predicate StepsAre(rt: Runtime, p: Program, x: XVal, s: Scope, ys: seq<XVal>) {
    |ys| == |p.steps| && forall k :: 0 <= k < |ys| ==> StepIs(rt, p, x, s, ys[..k], p.steps[k], ys[k])
  }

  /** The function called on `x` returns `z`. */
  ghost predicate Returns(rt: Runtime, p: Program, x: XVal, s: Scope, z: XVal) {
    exists ys :: StepsAre(rt, p, x, s, ys) && OperandIs(rt, p, x, s, ys, p.result, z)
  }

  // ----- the call tree has this meaning -----

  ghost predicate AllAre(rt: Runtime, ts: seq<Value>, s: Scope, zs: seq<XVal>) {
    |zs| == |ts| && forall i :: 0 <= i < |ts| ==> Evaluates(rt, ts[i], s, Ok(zs[i]))
  }

  lemma SelectionIs(x: XVal, i: nat, y: XVal)
    requires i < 0x8000_0000
    ensures SelectionRule(x, i, Ok(y)) <==> MemberOf(x, i, y)
  {
  }

  /** The expression for a parameter gives the parameter. */
  lemma ParameterIs(rt: Runtime, p: Program, x: XVal, base: Scope, i: nat, y: XVal)
    requires ProgramOk(p) && i < p.arity && i < 0x8000_0000
    ensures Evaluates(rt, ParamIr(p, i), Bind("arg", x, base), Ok(y)) <==>
              OperandIs(rt, p, x, Bind("arg", x, base), [], Param(i), y)
  {
    hide Evaluates, SelectionRule, MemberOf;
    var s := Bind("arg", x, base);
    forall q
      ensures Evaluates(rt, Arg(), s, q) <==> q == Ok(x)
    {
      EvaluationFollowsRules(rt, Arg(), s, q);
    }
    assert Evaluates(rt, Arg(), s, Ok(x));
    SelectionIs(x, i, y);
    EvaluationFollowsRules(rt, Select(Arg(), i, NO_META), s, Ok(y));
  }

  lemma ListIs(rt: Runtime, ts: seq<Value>, s: Scope, y: XVal)
    ensures Evaluates(rt, Struct(ts, NO_META), s, Ok(y)) <==> y.Structure? && AllAre(rt, ts, s, y.elements)
  {
    hide Evaluates;
    EvaluationFollowsRules(rt, Struct(ts, NO_META), s, Ok(y));
    if y.Structure? && AllAre(rt, ts, s, y.elements) {
      assert InOrder(rt, Evaluated, ts, s, Ok(y.elements));
    }
    if xs :| InOrder(rt, Evaluated, ts, s, xs) && Ok(y) == StructureOf(xs) {
      assert xs == Ok(y.elements);
      assert forall i :: 0 <= i < |ts| ==> Gives(rt, Evaluated, ts[i], s, Ok(y.elements[i]));
    }
  }

  lemma PackedIs(rt: Runtime, ts: seq<Value>, s: Scope, zs: seq<XVal>)
    requires |ts| > 0 && AllAre(rt, ts, s, zs)
    ensures Evaluates(rt, Input(ts), s, Ok(Passed(zs)))
  {
    hide Evaluates;
    if |ts| > 1 {
      ListIs(rt, ts, s, Structure(zs));
    }
  }

  lemma Unpacked(rt: Runtime, ts: seq<Value>, s: Scope, b: XVal) returns (zs: seq<XVal>)
    requires |ts| > 0 && Evaluates(rt, Input(ts), s, Ok(b))
    ensures AllAre(rt, ts, s, zs) && b == Passed(zs)
  {
    hide Evaluates;
    if |ts| > 1 {
      ListIs(rt, ts, s, b);
      zs := b.elements;
    } else {
      zs := [b];
    }
  }

  /** A call of `f` on the packed `ts` is the call of what `f` is on what they are. */
  lemma CallTreeIs(rt: Runtime, f: Value, ts: seq<Value>, s: Scope, y: XVal)
    requires |ts| > 0
    ensures Evaluates(rt, Call(f, Some(Input(ts)), NO_META), s, Ok(y)) <==>
              exists g, zs :: Evaluates(rt, f, s, Ok(g)) && AllAre(rt, ts, s, zs) && CallIs(rt, g, zs, y)
  {
    hide Evaluates, Applies, AllAre, Input, Passed;
    var a := Input(ts);
    EvaluationFollowsRules(rt, Call(f, Some(a), NO_META), s, Ok(y));
    if g :| Evaluates(rt, f, s, g) && CallRule(rt, g, Some(a), s, Ok(y)) {
      var b :| Evaluates(rt, a, s, b) && if b.Err? then Ok(y) == Err(b.code) else Applies(rt, g.value, Some(b.value), Ok(y));
      var zs := Unpacked(rt, ts, s, b.value);
      NotEmpty(rt, ts, s, zs);
      assert Evaluates(rt, f, s, Ok(g.value)) && AllAre(rt, ts, s, zs) && CallIs(rt, g.value, zs, y);
    }
    if g, zs :| Evaluates(rt, f, s, Ok(g)) && AllAre(rt, ts, s, zs) && CallIs(rt, g, zs, y) {
      PackedIs(rt, ts, s, zs);
      assert Evaluates(rt, a, s, Ok(Passed(zs)));
      assert CallRule(rt, Ok(g), Some(a), s, Ok(y));
    }
  }

  lemma NotEmpty(rt: Runtime, ts: seq<Value>, s: Scope, zs: seq<XVal>)
    requires |ts| > 0 && AllAre(rt, ts, s, zs)
    ensures |zs| > 0
  {
  }

  /** The trees of the first steps are what these steps give. */
  ghost predicate TreesAre(rt: Runtime, p: Program, s: Scope, ys: seq<XVal>)
    requires ProgramOk(p)
  {
    |ys| <= |p.steps| && forall j :: 0 <= j < |ys| ==> Evaluates(rt, StepTree(p, j), s, Ok(ys[j]))
  }

  lemma {:induction false} OperandTreeIs(rt: Runtime, p: Program, x: XVal, base: Scope, ys: seq<XVal>, o: Operand, y: XVal)
    requires ProgramOk(p) && TreesAre(rt, p, Bind("arg", x, base), ys) && OperandOk(p, |ys|, o)
    ensures Evaluates(rt, OperandTree(p, |ys|, o), Bind("arg", x, base), Ok(y)) <==>
              OperandIs(rt, p, x, Bind("arg", x, base), ys, o, y)
  {
    hide Evaluates, MemberOf, StepTree;
    var s := Bind("arg", x, base);
    match o
    case Param(i) => ParameterIs(rt, p, x, base, i, y);
    case Own(_) =>
    case Earlier(j) =>
      if Evaluates(rt, StepTree(p, j), s, Ok(y)) {
        EvaluatesUnique(rt, StepTree(p, j), s, Ok(y), Ok(ys[j]));
      }
  }

  lemma {:induction false} OperandTreesAre(rt: Runtime, p: Program, x: XVal, base: Scope, ys: seq<XVal>, os: seq<Operand>, zs: seq<XVal>)
    requires ProgramOk(p) && TreesAre(rt, p, Bind("arg", x, base), ys)
    requires forall i :: 0 <= i < |os| ==> OperandOk(p, |ys|, os[i])
    ensures AllAre(rt, OperandTrees(p, |ys|, os), Bind("arg", x, base), zs) <==>
              OperandsAre(rt, p, x, Bind("arg", x, base), ys, os, zs)
  {
    hide Evaluates, OperandIs, StepTree, OperandTree;
    var s, ts := Bind("arg", x, base), OperandTrees(p, |ys|, os);
    if |zs| == |os| {
      forall i | 0 <= i < |os|
        ensures Evaluates(rt, ts[i], s, Ok(zs[i])) <==> OperandIs(rt, p, x, s, ys, os[i], zs[i])
      {
        OperandTreeIs(rt, p, x, base, ys, os[i], zs[i]);
      }
    }
  }

  /** The tree of a step is what the step gives. */
  lemma {:induction false} StepTreeIs(rt: Runtime, p: Program, x: XVal, base: Scope, ys: seq<XVal>, y: XVal)
    requires ProgramOk(p) && |ys| < |p.steps| && TreesAre(rt, p, Bind("arg", x, base), ys)
    ensures Evaluates(rt, StepTree(p, |ys|), Bind("arg", x, base), Ok(y)) <==>
              StepIs(rt, p, x, Bind("arg", x, base), ys, p.steps[|ys|], y)
  {
    hide Evaluates, OperandIs, OperandTree, TreesAre, CallIs, AllAre, OperandsAre, Input;
    var k, s := |ys|, Bind("arg", x, base);
    assert StepOk(p, k, p.steps[k]);
    match p.steps[k]
    case EmbedStep(value) => OperandTreeIs(rt, p, x, base, ys, value, y);
    case CallStep(fn, args) =>
      var f, ts := OperandTree(p, k, fn), OperandTrees(p, k, args);
      CallTreeIs(rt, f, ts, s, y);
      forall g { OperandTreeIs(rt, p, x, base, ys, fn, g); }
      forall zs { OperandTreesAre(rt, p, x, base, ys, args, zs); }
  }

  lemma {:induction false} StepsToTrees(rt: Runtime, p: Program, x: XVal, base: Scope, ys: seq<XVal>, k: nat)
    requires ProgramOk(p) && StepsAre(rt, p, x, Bind("arg", x, base), ys) && k <= |ys|
    ensures TreesAre(rt, p, Bind("arg", x, base), ys[..k])
    decreases k
  {
    hide Evaluates, StepIs, StepTree;
    if k > 0 {
      StepsToTrees(rt, p, x, base, ys, k - 1);
      StepTreeIs(rt, p, x, base, ys[..k - 1], ys[k - 1]);
      assert forall j :: 0 <= j < k - 1 ==> ys[..k][j] == ys[..k - 1][j];
    }
  }

  lemma TreesToSteps(rt: Runtime, p: Program, x: XVal, base: Scope, ys: seq<XVal>)
    requires ProgramOk(p) && |ys| == |p.steps| && TreesAre(rt, p, Bind("arg", x, base), ys)
    ensures StepsAre(rt, p, x, Bind("arg", x, base), ys)
  {
    hide Evaluates, StepIs, StepTree;
    forall k | 0 <= k < |ys|
      ensures StepIs(rt, p, x, Bind("arg", x, base), ys[..k], p.steps[k], ys[k])
    {
      StepTreeIs(rt, p, x, base, ys[..k], ys[k]);
    }
  }

  ghost function ResultOf(rt: Runtime, t: Value, s: Scope): (y: XVal)
    requires Evaluable(rt, t, s)
    ensures Evaluates(rt, t, s, Ok(y))
  {
    var n: nat :| Eval(rt, n, t, s).IsOk();
    assert Eval(rt, n, t, s) == Done(Ok(Eval(rt, n, t, s).result.value));
    Eval(rt, n, t, s).result.value
  }

  /** The traced function returns `z` exactly when its call tree evaluates to `z` and each of
      its steps evaluates. */
  lemma ReturnsIsTree(rt: Runtime, p: Program, x: XVal, base: Scope, z: XVal)
    requires ProgramOk(p)
    ensures Returns(rt, p, x, Bind("arg", x, base), z) <==>
              Evaluates(rt, Tree(p), Bind("arg", x, base), Ok(z)) && CallsSucceed(rt, p, Bind("arg", x, base))
  {
    hide Evaluates, StepsAre, OperandIs, StepTree, OperandTree, Evaluable;
    var s, k := Bind("arg", x, base), |p.steps|;
    if Returns(rt, p, x, s, z) {
      var ys :| StepsAre(rt, p, x, s, ys) && OperandIs(rt, p, x, s, ys, p.result, z);
      StepsEvaluate(rt, p, x, base, ys);
      OperandTreeIs(rt, p, x, base, ys, p.result, z);
    }
    if Evaluates(rt, Tree(p), s, Ok(z)) && CallsSucceed(rt, p, s) {
      var ys := seq(k, j requires 0 <= j < k => ResultOf(rt, StepTree(p, j), s));
      TreesToSteps(rt, p, x, base, ys);
      OperandTreeIs(rt, p, x, base, ys, p.result, z);
    }
  }

  lemma StepsEvaluate(rt: Runtime, p: Program, x: XVal, base: Scope, ys: seq<XVal>)
    requires ProgramOk(p) && StepsAre(rt, p, x, Bind("arg", x, base), ys)
    ensures |ys| == |p.steps| && TreesAre(rt, p, Bind("arg", x, base), ys) && CallsSucceed(rt, p, Bind("arg", x, base))
  {
    hide StepIs, StepTree;
    var s := Bind("arg", x, base);
    StepsToTrees(rt, p, x, base, ys, |ys|);
    assert ys[..|ys|] == ys;
    forall j | 0 <= j < |p.steps|
      ensures Evaluable(rt, StepTree(p, j), s)
    {
      var n: nat :| Eval(rt, n, StepTree(p, j), s) == Done(Ok(ys[j]));
    }
  }

  // ----- the theorem -----

  lemma TracedResponds(rt: Runtime, p: Program, x: XVal, base: Scope, y: XVal)
    requires ProgramOk(p)
    ensures Responds(rt, Traced(p), base, x, Ok(y)) <==> Applies(rt, TracedValue(p, base), Some(x), Ok(y))
  {
    hide Evaluates, Applies, TraceSteps, BodyOf;
    forall f
      ensures Evaluates(rt, Traced(p), base, f) <==> f == Ok(TracedValue(p, base))
    {
      EvaluationFollowsRules(rt, Traced(p), base, f);
    }
    assert Evaluates(rt, Traced(p), base, Ok(TracedValue(p, base)));
  }

  ghost predicate ReturnsSame(rt: Runtime, m: Mode, p: Program, x: XVal, s: Scope, y: XVal) {
    exists z :: Returns(rt, p, x, s, z) && Same(rt, m, y, z)
  }

  ghost predicate RespondsSame(rt: Runtime, m: Mode, v: Value, s: Scope, x: XVal, z: XVal) {
    exists y :: Responds(rt, v, s, x, Ok(y)) && Same(rt, m, y, z)
  }

  lemma TracedReturns(rt: Runtime, m: Mode, p: Program, x: XVal, base: Scope, y: XVal)
    requires ProgramOk(p) && ProgramClosed(rt, m, p) && Covers(rt, m) && Same(rt, m, x, x) && BaseOk(rt, m, base)
    requires Responds(rt, Traced(p), base, x, Ok(y))
    ensures ReturnsSame(rt, m, p, x, Bind("arg", x, base), y)
  {
    hide Same, BaseOk, Covers, Tree, ProgramClosed, Responds, Applies, Returns, CallsSucceed, Eval, TracedValue;
    var s := Bind("arg", x, base);
    TracedResponds(rt, p, x, base, y);
    TracingSound(rt, m, p, x, base, y);
    TracedCallsSucceed(rt, m, p, x, base, y);
    var n: nat :| MeansAt(rt, m, n, Tree(p), s, y);
    var z := Eval(rt, n, Tree(p), s).result.value;
    EvalIs(rt, n, Tree(p), s, Ok(z));
    ReturnsIsTree(rt, p, x, base, z);
    SameSymmetric(rt, m, z, y);
  }

  lemma ReturnsTraced(rt: Runtime, m: Mode, p: Program, x: XVal, base: Scope, z: XVal)
    requires ProgramOk(p) && ProgramClosed(rt, m, p) && Covers(rt, m) && Same(rt, m, x, x) && BaseOk(rt, m, base)
    requires Returns(rt, p, x, Bind("arg", x, base), z)
    ensures RespondsSame(rt, m, Traced(p), base, x, z)
  {
    hide Same, BaseOk, Covers, Tree, ProgramClosed, Responds, Returns, CallsSucceed, Evaluates, TracedValue;
    ReturnsIsTree(rt, p, x, base, z);
    TracingComplete(rt, m, p, x, base, z);
    var f := TracedValue(p, base);
    var n: nat :| Apply(rt, n, f, Some(x)).IsOk() && Same(rt, m, Apply(rt, n, f, Some(x)).result.value, z);
    var y := Apply(rt, n, f, Some(x)).result.value;
    assert Apply(rt, n, f, Some(x)) == Done(Ok(y));
    TracedResponds(rt, p, x, base, y);
  }

  /** The traced computation does what the traced function does: it gives a value exactly when
      the function returns one of the same meaning. */
  lemma TracedMeansFunction(rt: Runtime, m: Mode, p: Program, x: XVal, base: Scope)
    requires ProgramOk(p) && ProgramClosed(rt, m, p) && Covers(rt, m) && Same(rt, m, x, x) && BaseOk(rt, m, base)
    ensures forall y :: Responds(rt, Traced(p), base, x, Ok(y)) ==> ReturnsSame(rt, m, p, x, Bind("arg", x, base), y)
    ensures forall z :: Returns(rt, p, x, Bind("arg", x, base), z) ==> RespondsSame(rt, m, Traced(p), base, x, z)
  {
    hide Same, BaseOk, Covers, ProgramClosed, Responds, Returns, ReturnsSame, RespondsSame;
    var s := Bind("arg", x, base);
    forall y | Responds(rt, Traced(p), base, x, Ok(y))
      ensures ReturnsSame(rt, m, p, x, s, y)
    {
      TracedReturns(rt, m, p, x, base, y);
    }
    forall z | Returns(rt, p, x, s, z)
      ensures RespondsSame(rt, m, Traced(p), base, x, z)
    {
      ReturnsTraced(rt, m, p, x, base, z);
    }
  }
}
