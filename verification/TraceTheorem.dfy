/** The main theorem about the tracing compiler. */
module TraceTheorem {
  import opened Common
  import opened Ir
  import opened Names
  import opened Evaluator
  import opened Fuel
  import opened Relevance
  import opened Tracing
  import opened TraceTrees
  import opened TraceMeaning

  // ----- every local of a trace is live -----

  lemma {:induction false} InternAllNew(irs: Trace, vs: seq<Value>)
    ensures forall i :: |irs| <= i < |InternAll(irs, vs).0| ==> RefTo(i) in InternAll(irs, vs).1
    ensures forall a :: 0 <= a < |vs| && vs[a].Ref? ==> InternAll(irs, vs).1[a] == vs[a]
    decreases |vs|
  {
    if vs != [] {
      var k := |vs| - 1;
      InternAllNew(irs, vs[..k]);
      var (irs', most) := InternAll(irs, vs[..k]);
      var (irs'', last) := Intern(irs', vs[k]);
      assert last in most + [last];
      forall i | |irs| <= i < |irs''|
        ensures RefTo(i) in most + [last]
      {
        if i < |irs'| { assert RefTo(i) in most; } else { assert RefTo(i) == last; }
      }
    }
  }

  lemma InputMentions(f: Value, refs: seq<Value>, r: Value)
    requires f.Ref? && |refs| > 0 && r in refs
    ensures Mentions(Call(f, Some(Input(refs)), NO_META), r)
  {
    if |refs| == 1 { assert refs[0] == r; }
  }

  /** Every local that a traced call adds is its result, or is mentioned by its result. */
  lemma TraceCallLive(irs: Trace, fn: Value, args: seq<Value>) returns (c: nat)
    requires |args| > 0
    ensures var (irs', r) := TraceCall(irs, fn, args);
            && c < |irs'| && r == RefTo(c)
            && forall i :: |irs| <= i < |irs'| && i != c ==> Mentions(irs'[c], RefTo(i))
  {
    var (irs1, refs) := InternAll(irs, args);
    InternAllNew(irs, args);
    var (irs2, f) := Intern(irs1, fn);
    var call := Call(f, Some(Input(refs)), NO_META);
    var (irs3, r) := Intern(irs2, call);
    c := if call in irs2 then IndexOf(irs2, call) else |irs2|;
    assert irs3[c] == call;
    forall i | |irs| <= i < |irs3| && i != c
      ensures Mentions(call, RefTo(i))
    {
      if i < |irs1| { InputMentions(f, refs, RefTo(i)); }
    }
  }

  ghost predicate AllLive(irs: Trace, results: seq<Value>) {
    forall i :: 0 <= i < |irs| ==> LocalLive(irs, results, i)
  }

  /** A step adds locals that are its result or are mentioned by it, and keeps the others
      live. */
  lemma {:induction false} StepLive(p: Program, irs: Trace, results: seq<Value>, c: Step)
    requires StepOk(p, |results|, c) && AllLive(irs, results)
    ensures var (irs', r) := TraceStep(p, irs, results, c); AllLive(irs', results + [r])
  {
    hide AllLive, OperandIr, TraceCall, Mentions;
    match c
    case CallStep(fn, args) =>
      var f, bs := OperandIr(p, results, fn), OperandIrs(p, results, args);
      var l := TraceCallLive(irs, f, bs);
      var (irs', r) := TraceCall(irs, f, bs);
      ExtendLive(irs, results, irs', r, l);
    case EmbedStep(value) =>
      var (irs', r) := Intern(irs, OperandIr(p, results, value));
      if irs' == irs {
        StaysLive(irs, results, r);
      } else {
        ExtendLive(irs, results, irs', r, |irs|);
      }
  }

  lemma StaysLive(irs: Trace, results: seq<Value>, r: Value)
    requires AllLive(irs, results)
    ensures AllLive(irs, results + [r])
  {
    hide Mentions;
    forall i | 0 <= i < |irs|
      ensures LocalLive(irs, results + [r], i)
    {
      assert LocalLive(irs, results, i);
    }
  }

  lemma {:induction false} TraceStepsLive(p: Program, k: nat)
    requires ProgramOk(p) && k <= |p.steps|
    ensures AllLive(TraceSteps(p, k).0, TraceSteps(p, k).1)
    decreases k
  {
    hide AllLive, OperandIr, TraceCall, Mentions;
    if k > 0 {
      TraceStepsLive(p, k - 1);
      var (irs, results) := TraceSteps(p, k - 1);
      StepLive(p, irs, results, p.steps[k - 1]);
    } else {
      NothingLive(p);
    }
  }

  lemma {:induction false} NothingLive(p: Program)
    requires ProgramOk(p)
    ensures AllLive(TraceSteps(p, 0).0, TraceSteps(p, 0).1)
  {
  }

  lemma ExtendLive(irs: Trace, results: seq<Value>, irs': Trace, r: Value, l: nat)
    requires irs <= irs' && AllLive(irs, results) && l < |irs'| && r == RefTo(l)
    requires forall i :: |irs| <= i < |irs'| && i != l ==> Mentions(irs'[l], RefTo(i))
    ensures AllLive(irs', results + [r])
  {
    hide Mentions;
    assert r in results + [r];
    forall i | 0 <= i < |irs'|
      ensures LocalLive(irs', results + [r], i)
    {
      if i < |irs| && RefTo(i) !in results {
        assert LocalLive(irs, results, i);
        var j :| 0 <= j < |irs| && Mentions(irs[j], RefTo(i));
        assert irs'[j] == irs[j];
      }
    }
  }

  // ----- the theorem -----

  /** The traced lambda, as a value, when it is evaluated in `base`. */
  ghost function TracedValue(p: Program, base: Scope): XVal
    requires ProgramOk(p)
  {
    Closure("arg", Traced(p).result, base)
  }

  ghost predicate AppliesLike(rt: Runtime, m: Mode, f: XVal, x: XVal, z: XVal) {
    exists n: nat :: Apply(rt, n, f, Some(x)).IsOk() && Same(rt, m, Apply(rt, n, f, Some(x)).result.value, z)
  }

  lemma BodyEval(rt: Runtime, n: nat, irs: Trace, r: Value, s: Scope)
    ensures irs == [] ==> Eval(rt, n + 1, BodyOf(irs, r), s) == EvalBlock(rt, n + 1, LocalsOf(irs), r, s)
    ensures irs != [] ==> Eval(rt, n + 1, BodyOf(irs, r), s) == EvalBlock(rt, n, LocalsOf(irs), r, s)
  {
    if irs == [] { assert LocalsOf(irs) == []; }
  }

  lemma BodyBlock(rt: Runtime, n: nat, irs: Trace, r: Value, s: Scope, y: XVal) returns (k: nat)
    requires Eval(rt, n, BodyOf(irs, r), s) == Done(Ok(y))
    ensures EvalBlock(rt, k, LocalsOf(irs), r, s) == Done(Ok(y))
  {
    BodyEval(rt, n - 1, irs, r, s);
    k := if irs == [] then n else n - 1;
  }

  lemma {:induction false} NothingBound(rt: Runtime, m: Mode, irs: Trace, s: Scope)
    ensures BoundSoFar(rt, m, irs, s, []) && ScopeOf(s, []) == s && LocalsOf(irs)[0..] == LocalsOf(irs)
  {
  }

  lemma ArgIsBound(rt: Runtime, m: Mode, x: XVal, base: Scope)
    requires Same(rt, m, x, x) && BaseOk(rt, m, base)
    ensures ArgBound(rt, m, Bind("arg", x, base))
  {
    hide Same;
  }

  /** Tracing is sound: whenever the traced lambda succeeds on `x`, the unshared call tree
      of the traced function succeeds where `arg` is `x`, with the same value. */
  lemma TracingSound(rt: Runtime, m: Mode, p: Program, x: XVal, base: Scope, y: XVal)
    requires ProgramOk(p) && ProgramClosed(rt, m, p) && Covers(rt, m) && Same(rt, m, x, x) && BaseOk(rt, m, base)
    requires Applies(rt, TracedValue(p, base), Some(x), Ok(y))
    ensures Means(rt, m, Tree(p), Bind("arg", x, base), y)
  {
    hide Same, BaseOk, Covers, Traceable, TraceOk, Means, Expand, Trees, ArgBound, ProgramClosed, TraceCall, Eval;
    var n: nat :| Apply(rt, n, TracedValue(p, base), Some(x)) == Done(Ok(y));
    var s := Bind("arg", x, base);
    var (irs, results) := TraceSteps(p, |p.steps|);
    var r := OperandIr(p, results, p.result);
    TracedExpands(rt, m, p);
    ArgIsBound(rt, m, x, base);
    var k := BodyBlock(rt, n - 1, irs, r, s, y);
    NothingBound(rt, m, irs, s);
    BlockForward(rt, m, k, irs, r, s, [], y);
  }

  /** Every call and every named value of the traced function succeeds, where `arg` is `x`. Errors inside futures
      do not count: they are lazy. */
  ghost predicate CallsSucceed(rt: Runtime, p: Program, s: Scope)
    requires ProgramOk(p)
  {
    forall k :: 0 <= k < |p.steps| ==> Evaluable(rt, StepTree(p, k), s)
  }

  /** Tracing is complete: when the calls and the call tree succeed, so does the traced
      lambda, with the value of the call tree. */
  lemma TracingComplete(rt: Runtime, m: Mode, p: Program, x: XVal, base: Scope, z: XVal)
    requires ProgramOk(p) && ProgramClosed(rt, m, p) && Covers(rt, m) && Same(rt, m, x, x) && BaseOk(rt, m, base)
    requires Evaluates(rt, Tree(p), Bind("arg", x, base), Ok(z)) && CallsSucceed(rt, p, Bind("arg", x, base))
    ensures AppliesLike(rt, m, TracedValue(p, base), x, z)
  {
    hide Same, BaseOk, Covers, Traceable, TraceOk, Expand, ExpandRef, Trees, ArgBound, CallsSucceed, LocalLive, Evaluable;
    hide TraceStep, OperandIr, OperandTree, ProgramClosed;
    var s := Bind("arg", x, base);
    var n: nat :| Eval(rt, n, Tree(p), s) == Done(Ok(z));
    var (irs, results) := TraceSteps(p, |p.steps|);
    var r := OperandIr(p, results, p.result);
    TracedExpands(rt, m, p);
    ArgIsBound(rt, m, x, base);
    TraceStepsLive(p, |p.steps|);
    ResultsEvaluable(rt, m, p, s);
    forall j | 0 <= j < |irs|
      ensures Evaluable(rt, Trees(irs)[j], s)
    {
      LiveEvaluable(rt, m, irs, results, s, j);
    }
    NothingBound(rt, m, irs, s);
    var k := BlockBackward(rt, m, n, irs, r, s, [], z);
    EvalBlockMono(rt, k, k + 1, LocalsOf(irs), r, s);
    BodyEval(rt, k, irs, r, s);
    var f := TracedValue(p, base);
    assert Apply(rt, k + 2, f, Some(x)) == Eval(rt, k + 1, BodyOf(irs, r), s);
    assert Apply(rt, k + 2, f, Some(x)).IsOk();
  }

  lemma {:induction false} ResultsEvaluable(rt: Runtime, m: Mode, p: Program, s: Scope)
    requires ProgramOk(p) && ProgramClosed(rt, m, p) && CallsSucceed(rt, p, s)
    ensures var (irs, results) := TraceSteps(p, |p.steps|);
            forall q :: 0 <= q < |results| ==> Evaluable(rt, ExpandRef(Trees(irs), results[q]), s)
  {
    hide Evaluable;
    var (irs, results) := TraceSteps(p, |p.steps|);
    TraceStepsExpand(rt, m, p, |p.steps|);
    forall q | 0 <= q < |results|
      ensures Evaluable(rt, ExpandRef(Trees(irs), results[q]), s)
    {
      assert Stands(irs, results[q], StepTrees(p, |p.steps|)[q]);
    }
  }

  /** The traced lambda has evaluated every call of the traced function. */
  lemma TracedCallsSucceed(rt: Runtime, m: Mode, p: Program, x: XVal, base: Scope, y: XVal)
    requires ProgramOk(p) && ProgramClosed(rt, m, p) && Covers(rt, m) && Same(rt, m, x, x) && BaseOk(rt, m, base)
    requires Applies(rt, TracedValue(p, base), Some(x), Ok(y))
    ensures CallsSucceed(rt, p, Bind("arg", x, base))
  {
    hide Same, BaseOk, Covers, TraceOk, Expand, ExpandRef, Trees, ArgBound, Evaluable, TraceCall, ProgramClosed, StepTree, Eval;
    var n: nat :| Apply(rt, n, TracedValue(p, base), Some(x)) == Done(Ok(y));
    var s := Bind("arg", x, base);
    var (irs, results) := TraceSteps(p, |p.steps|);
    var r := OperandIr(p, results, p.result);
    TraceStepsExpand(rt, m, p, |p.steps|);
    ArgIsBound(rt, m, x, base);
    var k := BodyBlock(rt, n - 1, irs, r, s, y);
    NothingBound(rt, m, irs, s);
    forall q | 0 <= q < |p.steps|
      ensures Evaluable(rt, StepTree(p, q), s)
    {
      assert Stands(irs, results[q], StepTrees(p, |p.steps|)[q]);
      var c := ResultLocal(p, |p.steps|, q);
      if results[q] == Arg() {
        ExpandArg(Trees(irs));
        ArgEvaluates(rt, x, base);
      } else {
        ExpandRefAt(Trees(irs), c);
        BlockEvaluates(rt, m, k, irs, r, s, [], c);
      }
    }
  }

  lemma {:induction false} ArgEvaluates(rt: Runtime, x: XVal, base: Scope)
    ensures Evaluable(rt, Arg(), Bind("arg", x, base))
  {
    assert Eval(rt, 1, Arg(), Bind("arg", x, base)) == Done(Ok(x));
  }

  lemma NamedLocal(irs: Trace, v: Value) returns (c: nat)
    requires v.Ref? ==> v == Arg()
    ensures var (irs', r) := Intern(irs, v);
            r == Arg() || (c < |irs'| && r == RefTo(c))
  {
    c := if v in irs then IndexOf(irs, v) else |irs|;
  }

  /** The result of a step is a local of the trace, or the argument. */
  lemma {:induction false} ResultLocal(p: Program, k: nat, q: nat) returns (c: nat)
    requires ProgramOk(p) && k <= |p.steps| && q < k
    ensures TraceSteps(p, k).1[q] == Arg() || (c < |TraceSteps(p, k).0| && TraceSteps(p, k).1[q] == RefTo(c))
    decreases k, 0
  {
    var (irs, results) := TraceSteps(p, k - 1);
    if q < k - 1 {
      c := ResultLocal(p, k - 1, q);
    } else {
      assert StepOk(p, k - 1, p.steps[k - 1]);
      match p.steps[k - 1]
      case CallStep(fn, args) => c := TraceCallLive(irs, OperandIr(p, results, fn), OperandIrs(p, results, args));
      case EmbedStep(value) =>
        if value.Earlier? {
          c := ResultLocal(p, k - 1, value.step);
        } else {
          c := NamedLocal(irs, OperandIr(p, results, value));
        }
    }
  }

  /** The traced lambda succeeds exactly when the call tree succeeds and every call that the
      traced function made succeeds, whether or not its result is used. */
  lemma TracingExact(rt: Runtime, m: Mode, p: Program, x: XVal, base: Scope)
    requires ProgramOk(p) && ProgramClosed(rt, m, p) && Covers(rt, m) && Same(rt, m, x, x) && BaseOk(rt, m, base)
    ensures (exists y :: Applies(rt, TracedValue(p, base), Some(x), Ok(y)))
       <==> Evaluable(rt, Tree(p), Bind("arg", x, base)) && CallsSucceed(rt, p, Bind("arg", x, base))
  {
    hide Same, BaseOk, Covers, CallsSucceed, Tree, ProgramClosed;
    var s, f := Bind("arg", x, base), TracedValue(p, base);
    if exists y :: Applies(rt, f, Some(x), Ok(y)) {
      var y :| Applies(rt, f, Some(x), Ok(y));
      TracingSound(rt, m, p, x, base, y);
      var n: nat :| MeansAt(rt, m, n, Tree(p), s, y);
      assert Eval(rt, n, Tree(p), s).IsOk();
      TracedCallsSucceed(rt, m, p, x, base, y);
    }
    if Evaluable(rt, Tree(p), s) && CallsSucceed(rt, p, s) {
      var n: nat :| Eval(rt, n, Tree(p), s).IsOk();
      TracingComplete(rt, m, p, x, base, Eval(rt, n, Tree(p), s).result.value);
      var k: nat :| Apply(rt, k, f, Some(x)).IsOk();
      assert Applies(rt, f, Some(x), Ok(Apply(rt, k, f, Some(x)).result.value));
    }
  }

  // ----- programs without unused calls -----

  predicate Uses(c: Step, q: nat) {
    match c
    case CallStep(fn, args) => fn == Earlier(q) || Earlier(q) in args
    case EmbedStep(value) => value == Earlier(q)
  }

  /** Every call of the traced function is used by a later call or returned. */
  ghost predicate NoDeadCall(p: Program) {
    forall q :: 0 <= q < |p.steps| ==>
      p.result == Earlier(q) || exists k :: 0 <= k < |p.steps| && Uses(p.steps[k], q)
  }

  lemma {:induction false} UsedEvaluable(rt: Runtime, p: Program, k: nat, q: nat, s: Scope)
    requires ProgramOk(p) && k < |p.steps| && Uses(p.steps[k], q) && Evaluable(rt, StepTree(p, k), s)
    ensures q < k && Evaluable(rt, StepTree(p, q), s)
  {
    var c := p.steps[k];
    assert StepOk(p, k, c);
    if c.EmbedStep? {
      assert StepTree(p, k) == OperandTree(p, k, c.value) && OperandTree(p, k, Earlier(q)) == StepTree(p, q);
      return;
    }
    var n: nat :| Eval(rt, n, StepTree(p, k), s).IsOk();
    var f, a := OperandTree(p, k, c.fn), Input(OperandTrees(p, k, c.args));
    var x, b := CallParts(rt, n, f, a, s, Eval(rt, n, StepTree(p, k), s).result.value);
    if c.fn != Earlier(q) {
      var i :| 0 <= i < |c.args| && c.args[i] == Earlier(q);
      var ts := OperandTrees(p, k, c.args);
      assert ts[i] == OperandTree(p, k, c.args[i]);
      if |ts| > 1 {
        assert EvalAll(rt, n - 2, ts, s).IsOk();
        MemberEvaluable(rt, n - 2, ts, s, i);
      }
    }
  }

  lemma {:induction false} NoDeadCallSucceeds(rt: Runtime, p: Program, q: nat, s: Scope)
    requires ProgramOk(p) && NoDeadCall(p) && q < |p.steps| && Evaluable(rt, Tree(p), s)
    ensures Evaluable(rt, StepTree(p, q), s)
    decreases |p.steps| - q
  {
    hide Evaluable, Uses;
    if p.result != Earlier(q) {
      var k :| 0 <= k < |p.steps| && Uses(p.steps[k], q);
      UsedLater(p, k, q);
      NoDeadCallSucceeds(rt, p, k, s);
      UsedEvaluable(rt, p, k, q, s);
    }
  }

  lemma UsedLater(p: Program, k: nat, q: nat)
    requires ProgramOk(p) && k < |p.steps| && Uses(p.steps[k], q)
    ensures q < k
  {
    assert StepOk(p, k, p.steps[k]);
  }

  /** Without unused calls, tracing preserves meaning in both directions. */
  lemma TracingPreservesMeaning(rt: Runtime, m: Mode, p: Program, x: XVal, base: Scope)
    requires ProgramOk(p) && ProgramClosed(rt, m, p) && Covers(rt, m) && Same(rt, m, x, x) && BaseOk(rt, m, base) && NoDeadCall(p)
    ensures forall y :: Applies(rt, TracedValue(p, base), Some(x), Ok(y)) ==> Means(rt, m, Tree(p), Bind("arg", x, base), y)
    ensures forall z :: Evaluates(rt, Tree(p), Bind("arg", x, base), Ok(z)) ==> AppliesLike(rt, m, TracedValue(p, base), x, z)
  {
    hide Same, BaseOk, Covers, Tree, ProgramClosed, NoDeadCall, Means, AppliesLike, Applies;
    var s, f := Bind("arg", x, base), TracedValue(p, base);
    forall y | Applies(rt, f, Some(x), Ok(y))
      ensures Means(rt, m, Tree(p), s, y)
    {
      TracingSound(rt, m, p, x, base, y);
    }
    forall z | Evaluates(rt, Tree(p), s, Ok(z))
      ensures AppliesLike(rt, m, f, x, z)
    {
      var n: nat :| Eval(rt, n, Tree(p), s) == Done(Ok(z));
      forall q | 0 <= q < |p.steps|
        ensures Evaluable(rt, StepTree(p, q), s)
      {
        NoDeadCallSucceeds(rt, p, q, s);
      }
      TracingComplete(rt, m, p, x, base, z);
    }
  }

  // ----- why unused calls matter -----

  /** A traced function that calls something uncallable, drops the result and returns its
      parameter. */
  const DROPS_A_CALL := Program(1, [CallStep(Own(Struct([], NO_META)), [Param(0)])], Param(0))
  const EMPTY := Struct([], NO_META)
  const CALLS_EMPTY := Call(Ref(VarName(0), NO_META), Some(Ref("arg", NO_META)), NO_META)

  lemma DroppedTrace()
    ensures ProgramOk(DROPS_A_CALL)
    ensures Traced(DROPS_A_CALL).result == BodyOf([EMPTY, CALLS_EMPTY], Arg())
  {
    var p := DROPS_A_CALL;
    assert OperandIrs(p, [], p.steps[0].args) == [Arg()];
    var no: seq<Value> := [Arg()][..0];
    assert no == [] && InternAll([], no) == ([], []);
    assert [] + [Arg()] == [Arg()];
    assert InternAll([], [Arg()]) == ([], [Arg()]);
    assert CALLS_EMPTY !in [EMPTY] && [EMPTY] + [CALLS_EMPTY] == [EMPTY, CALLS_EMPTY];
    assert Intern([EMPTY], CALLS_EMPTY) == ([EMPTY, CALLS_EMPTY], RefTo(1));
    assert TraceSteps(p, 0) == ([], []);
    assert TraceSteps(p, 1).0 == [EMPTY, CALLS_EMPTY];
  }

  lemma {:induction false} DroppedBlock(rt: Runtime, s: Scope)
    requires Resolve(s, "arg").Ok?
    ensures EvalBlock(rt, 5, LocalsOf([EMPTY, CALLS_EMPTY]), Arg(), s) == Done(Err(InvalidArgument))
  {
    var locals := LocalsOf([EMPTY, CALLS_EMPTY]);
    var t := Bind(VarName(0), Structure([]), s);
    VarNameIsNotArg(0);
    assert Eval(rt, 5, EMPTY, s) == Done(Ok(Structure([])));
    assert Eval(rt, 4, CALLS_EMPTY.fn, t) == Done(Ok(Structure([])));
    assert EvalArgument(rt, 4, CALLS_EMPTY.argument, t) == Done(Ok(Some(Resolve(s, "arg").value)));
    assert Eval(rt, 5, CALLS_EMPTY, t) == Done(Err(InvalidArgument));
    assert locals[1..][0] == Local(VarName(1), CALLS_EMPTY);
    assert EvalBlock(rt, 5, locals[1..], Arg(), t) == Done(Err(InvalidArgument));
  }

  /** The block evaluates the dropped call and fails; the call tree does not contain it. */
  lemma DeadCallChangesMeaning(rt: Runtime, x: XVal, base: Scope)
    ensures ProgramOk(DROPS_A_CALL) && !NoDeadCall(DROPS_A_CALL)
    ensures Evaluates(rt, Tree(DROPS_A_CALL), Bind("arg", x, base), Ok(x))
    ensures Applies(rt, TracedValue(DROPS_A_CALL, base), Some(x), Err(InvalidArgument))
  {
    var p, s := DROPS_A_CALL, Bind("arg", x, base);
    assert !Uses(p.steps[0], 0);
    DroppedTrace();
    DroppedBlock(rt, s);
    assert Eval(rt, 1, Tree(p), s) == Done(Ok(x));
    BodyEval(rt, 5, [EMPTY, CALLS_EMPTY], Arg(), s);
    assert Apply(rt, 7, TracedValue(p, base), Some(x)) == Done(Err(InvalidArgument));
  }
}
