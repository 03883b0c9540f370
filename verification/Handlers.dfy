/** What `Fallback` and the encoded conditional mean. */
module Handlers {
  import opened Common
  import opened Ir
  import opened Evaluator
  import opened EvaluationRules
  import opened Fuel
  import opened Constructors
  import opened Relevance
  import opened ScopeRelevance

  // ----- Fallback -----

  ghost predicate Fails(rt: Runtime, n: nat, v: Value, a: Option<XVal>, s: Scope) {
    Candidate(rt, n, v, a, s).Done? && Candidate(rt, n, v, a, s).result.Err?
  }

  /** The error of the last candidate, or the initial one when there is none. */
  ghost function LastError(rt: Runtime, n: nat, fns: seq<Value>, a: Option<XVal>, error: Code, s: Scope): Code
    requires forall i :: 0 <= i < |fns| ==> Fails(rt, n, fns[i], a, s)
  {
    if fns == [] then error
    else
      assert Fails(rt, n, fns[|fns| - 1], a, s);
      Candidate(rt, n, fns[|fns| - 1], a, s).result.code
  }

  /** All candidates fail: the result is the error of the last one. */
  lemma {:induction false} FallbackAllFail(rt: Runtime, n: nat, fns: seq<Value>, a: Option<XVal>, error: Code, s: Scope)
    requires forall i :: 0 <= i < |fns| ==> Fails(rt, n, fns[i], a, s)
    ensures FallbackFrom(rt, n, fns, a, error, s) == Done(Err(LastError(rt, n, fns, a, error, s)))
    decreases |fns|
  {
    if fns != [] {
      assert Fails(rt, n, fns[0], a, s);
      FallbackAllFail(rt, n, fns[1..], a, Candidate(rt, n, fns[0], a, s).result.code, s);
    }
  }

  /** After the failing candidates in `failed`, the candidate `v` decides; the ones in
      `later` are never looked at. */
  lemma {:induction false} FallbackDecides(
      rt: Runtime, n: nat, failed: seq<Value>, v: Value, later: seq<Value>, a: Option<XVal>, error: Code, s: Scope)
    requires forall i :: 0 <= i < |failed| ==> Fails(rt, n, failed[i], a, s)
    requires !Fails(rt, n, v, a, s)
    ensures FallbackFrom(rt, n, failed + [v] + later, a, error, s) == Candidate(rt, n, v, a, s)
    decreases |failed|
  {
    var fns := failed + [v] + later;
    if failed == [] {
      assert fns[0] == v;
    } else {
      assert fns[0] == failed[0] && Fails(rt, n, failed[0], a, s);
      assert fns[1..] == failed[1..] + [v] + later;
      FallbackDecides(rt, n, failed[1..], v, later, a, Candidate(rt, n, failed[0], a, s).result.code, s);
    }
  }

  /** `Fallback` returns exactly the first candidate that really materialises. */
  lemma {:induction false} FallbackFirstSuccess(rt: Runtime, n: nat, fns: seq<Value>, a: Option<XVal>, s: Scope, y: XVal)
    ensures FallbackFrom(rt, n, fns, a, Unavailable, s) == Done(Ok(y))
       <==> exists i :: 0 <= i < |fns| && Candidate(rt, n, fns[i], a, s) == Done(Ok(y))
                          && forall j :: 0 <= j < i ==> Fails(rt, n, fns[j], a, s)
    ensures FallbackFrom(rt, n, fns, a, Unavailable, s) == Done(Ok(y)) ==> Materialize(y).Ok?
  {
    var i := FirstNotFailing(rt, n, fns, a, s);
    if i == |fns| {
      FallbackAllFail(rt, n, fns, a, Unavailable, s);
    } else {
      FallbackDecides(rt, n, fns[..i], fns[i], fns[i + 1..], a, Unavailable, s);
      assert fns == fns[..i] + [fns[i]] + fns[i + 1..];
    }
  }

  lemma FirstNotFailing(rt: Runtime, n: nat, fns: seq<Value>, a: Option<XVal>, s: Scope) returns (i: nat)
    ensures i <= |fns| && (i < |fns| ==> !Fails(rt, n, fns[i], a, s))
    ensures forall j :: 0 <= j < i ==> Fails(rt, n, fns[j], a, s)
  {
    i := 0;
    while i < |fns| && Fails(rt, n, fns[i], a, s)
      invariant i <= |fns| && forall j :: 0 <= j < i ==> Fails(rt, n, fns[j], a, s)
    {
      i := i + 1;
    }
  }

  // ----- the encoded conditional -----

  /** What follows once the condition has evaluated to `c`: errors are passed on, and only
      the chosen branch is looked at. */
  ghost predicate IfFrom(rt: Runtime, c: Result<XVal>, positive: Value, negative: Value, s: Scope, r: Result<XVal>) {
    if c.Err? then r == Err(c.code)
    else
      var d := Materialize(c.value);
      if d.Err? then r == Err(d.code)
      else if !IsBoolean(d.value) then r == Err(InvalidArgument)
      else Evaluates(rt, if BooleanOf(d.value) then positive else negative, s, r)
  }

  /** `if condition then positive else negative`. */
  ghost predicate IfMeans(rt: Runtime, condition: Value, positive: Value, negative: Value, s: Scope, r: Result<XVal>) {
    exists c :: Evaluates(rt, condition, s, c) && IfFrom(rt, c, positive, negative, s, r)
  }

  lemma {:induction false} LabelIgnored(rt: Runtime, n: nat, tag: string, v: Value, s: Scope)
    requires v.Call?
    ensures Eval(rt, n, WithLabel(tag, v), s) == Eval(rt, n, v, s)
  {
  }

  /** The handler, once its argument has evaluated. */
  lemma {:induction false} ConditionalExec(rt: Runtime, n: nat, positive: Value, negative: Value, c: XVal, s: Scope)
    requires positive.Call? && negative.Call?
    ensures var fixed := Some(Struct([WithLabel("then", positive), WithLabel("else", negative)], NO_META));
            var d := Materialize(c);
            Exec(rt, n, Conditional, fixed, Some(c), s)
            == (if d.Err? then Done(Err(d.code))
                else if !IsBoolean(d.value) then Done(Err(InvalidArgument))
                else Eval(rt, n, if BooleanOf(d.value) then positive else negative, s))
  {
    var fixed := Some(Struct([WithLabel("then", positive), WithLabel("else", negative)], NO_META));
    assert FixedAt(fixed, 0) == WithLabel("then", positive) && FixedAt(fixed, 1) == WithLabel("else", negative);
    LabelIgnored(rt, n, "then", positive, s);
    LabelIgnored(rt, n, "else", negative, s);
    assert Create(rt, n, WithLabel("then", positive), s) == Eval(rt, n, positive, s);
    assert Create(rt, n, WithLabel("else", negative), s) == Eval(rt, n, negative, s);
    var d := Materialize(c);
    if d.Ok? && IsBoolean(d.value) {
      if BooleanOf(d.value) {
        assert ExecConditional(rt, n, fixed, c, s) == Create(rt, n, FixedAt(fixed, 0), s);
      } else {
        assert ExecConditional(rt, n, fixed, c, s) == Create(rt, n, FixedAt(fixed, 1), s);
      }
    }
    assert Exec(rt, n, Conditional, fixed, Some(c), s) == ExecConditional(rt, n, fixed, c, s);
  }

  /** `Call(conditional<then, else>, condition)` evaluates the condition, then runs the handler. */
  lemma ConditionalCall(rt: Runtime, n: nat, condition: Value, positive: Value, negative: Value, s: Scope)
    requires rt.kind(CONDITIONAL_URI) == ControlFlow(Conditional) && n >= 1
    ensures var fixed := Some(Struct([WithLabel("then", positive), WithLabel("else", negative)], NO_META));
            var c := Eval(rt, n, condition, s);
            Eval(rt, n + 1, CreateConditional(condition, positive, negative), s)
            == (if c.IsOk() then Exec(rt, n - 1, Conditional, fixed, Some(c.result.value), s) else c)
  {
    var fixed := Some(Struct([WithLabel("then", positive), WithLabel("else", negative)], NO_META));
    var f := CreateIntrinsic(CONDITIONAL_URI, fixed.value);
    assert Eval(rt, n, f, s) == Done(Ok(Operator(Conditional, fixed, s)));
    var c := Eval(rt, n, condition, s);
    if c.IsOk() {
      assert EvalArgument(rt, n, Some(condition), s) == Done(Ok(Some(c.result.value)));
    }
  }

  lemma {:induction false} ConditionalSound(rt: Runtime, n: nat, condition: Value, positive: Value, negative: Value, s: Scope, r: Result<XVal>)
    requires rt.kind(CONDITIONAL_URI) == ControlFlow(Conditional) && positive.Call? && negative.Call?
    requires Eval(rt, n, CreateConditional(condition, positive, negative), s) == Done(r)
    ensures IfMeans(rt, condition, positive, negative, s, r)
  {
    EvalMono(rt, n, n + 2, CreateConditional(condition, positive, negative), s);
    ConditionalCall(rt, n + 1, condition, positive, negative, s);
    var c := Eval(rt, n + 1, condition, s);
    if c.IsOk() {
      ConditionalExec(rt, n, positive, negative, c.result.value, s);
    }
    assert Evaluates(rt, condition, s, c.result) && IfFrom(rt, c.result, positive, negative, s, r);
  }

  lemma ConditionalComplete(rt: Runtime, condition: Value, positive: Value, negative: Value, s: Scope, r: Result<XVal>)
    requires rt.kind(CONDITIONAL_URI) == ControlFlow(Conditional) && positive.Call? && negative.Call?
    requires IfMeans(rt, condition, positive, negative, s, r)
    ensures Evaluates(rt, CreateConditional(condition, positive, negative), s, r)
  {
    hide IfFrom, CreateConditional, IsBoolean, BooleanOf, Exec, WithLabel;
    var c :| Evaluates(rt, condition, s, c) && IfFrom(rt, c, positive, negative, s, r);
    var i: nat :| Eval(rt, i, condition, s) == Done(c);
    var j := BranchFuel(rt, c, positive, negative, s, r);
    EvalMono(rt, i, i + j + 1, condition, s);
    ConditionalCall(rt, i + j + 1, condition, positive, negative, s);
    if c.Ok? {
      ExecMono(rt, j, i + j, Conditional, Some(Struct([WithLabel("then", positive), WithLabel("else", negative)], NO_META)),
               Some(c.value), s);
    } else {
      ErrorPassed(rt, c, positive, negative, s, r);
    }
    assert Eval(rt, i + j + 2, CreateConditional(condition, positive, negative), s) == Done(r);
  }

  lemma ErrorPassed(rt: Runtime, c: Result<XVal>, positive: Value, negative: Value, s: Scope, r: Result<XVal>)
    requires IfFrom(rt, c, positive, negative, s, r) && c.Err?
    ensures r == Err(c.code)
  {
  }

  /** The handler gets to `r` with some bound. */
  lemma BranchFuel(rt: Runtime, c: Result<XVal>, positive: Value, negative: Value, s: Scope, r: Result<XVal>) returns (j: nat)
    requires positive.Call? && negative.Call? && IfFrom(rt, c, positive, negative, s, r)
    ensures c.Ok? ==>
              Exec(rt, j, Conditional, Some(Struct([WithLabel("then", positive), WithLabel("else", negative)], NO_META)),
                   Some(c.value), s) == Done(r)
  {
    j := 0;
    if c.Ok? {
      var d := Materialize(c.value);
      if d.Ok? && IsBoolean(d.value) {
        j :| Eval(rt, j, if BooleanOf(d.value) then positive else negative, s) == Done(r);
      }
      ConditionalExec(rt, j, positive, negative, c.value, s);
    }
  }

  /** `CreateLambdaForConditional(c, p, q)` applied to `x` is
      `if c(arg) then p(arg) else q(arg)` where `arg` is `x`; the other branch is not
      evaluated. */
  lemma ConditionalMeaning(rt: Runtime, c: Value, p: Value, q: Value, base: Scope, x: XVal, r: Result<XVal>)
    requires rt.kind(CONDITIONAL_URI) == ControlFlow(Conditional)
    ensures Applies(rt, Closure("arg", CreateLambdaForConditional(c, p, q).result, base), Some(x), r)
       <==> IfMeans(rt, CreateCall(c, CreateReference("arg")), CreateCall(p, CreateReference("arg")),
                    CreateCall(q, CreateReference("arg")), Bind("arg", x, base), r)
  {
    var arg, s := CreateReference("arg"), Bind("arg", x, base);
    var f := Closure("arg", CreateLambdaForConditional(c, p, q).result, base);
    if Applies(rt, f, Some(x), r) {
      var n: nat :| Apply(rt, n, f, Some(x)) == Done(r);
      assert Eval(rt, n - 1, f.body, s) == Done(r);
      ConditionalSound(rt, n - 1, CreateCall(c, arg), CreateCall(p, arg), CreateCall(q, arg), s, r);
    }
    if IfMeans(rt, CreateCall(c, arg), CreateCall(p, arg), CreateCall(q, arg), s, r) {
      ConditionalComplete(rt, CreateCall(c, arg), CreateCall(p, arg), CreateCall(q, arg), s, r);
      var n: nat :| Eval(rt, n, f.body, s) == Done(r);
      assert Apply(rt, n + 1, f, Some(x)) == Done(r);
    }
  }

  // ----- the encoded conditional on functions -----

  /** `if c(x) then p(x) else q(x)`, for the functions that `c`, `p` and `q` make in `s`. */
  ghost predicate Chooses(rt: Runtime, c: Value, p: Value, q: Value, s: Scope, x: XVal, r: Result<XVal>) {
    exists y :: Responds(rt, c, s, x, y) && ChoiceFrom(rt, y, p, q, s, x, r)
  }

  ghost predicate ChoiceFrom(rt: Runtime, y: Result<XVal>, p: Value, q: Value, s: Scope, x: XVal, r: Result<XVal>) {
    if y.Err? then r == Err(y.code) else BranchFrom(rt, Materialize(y.value), p, q, s, x, r)
  }

  ghost predicate BranchFrom(rt: Runtime, d: Result<Value>, p: Value, q: Value, s: Scope, x: XVal, r: Result<XVal>) {
    if d.Err? then r == Err(d.code)
    else if !IsBoolean(d.value) then r == Err(InvalidArgument)
    else if BooleanOf(d.value) then Responds(rt, p, s, x, r)
    else Responds(rt, q, s, x, r)
  }

  lemma ArgumentCall(rt: Runtime, n: nat, v: Value, x: XVal, base: Scope)
    requires n > 0
    ensures Eval(rt, n + 1, CreateCall(v, CreateReference("arg")), Bind("arg", x, base)) ==
      (var f :- Eval(rt, n, v, Bind("arg", x, base)); Apply(rt, n, f, Some(x)))
  {
    assert EvalArgument(rt, n, Some(CreateReference("arg")), Bind("arg", x, base)) == Done(Ok(Some(x)));
  }

  lemma CallResponds(rt: Runtime, v: Value, x: XVal, base: Scope, r: Result<XVal>)
    requires Evaluates(rt, CreateCall(v, CreateReference("arg")), Bind("arg", x, base), r)
    ensures Responds(rt, v, Bind("arg", x, base), x, r)
  {
    hide Eval, Apply, CreateCall, CreateReference;
    var s, call := Bind("arg", x, base), CreateCall(v, CreateReference("arg"));
    var n: nat :| Eval(rt, n, call, s) == Done(r);
    EvalMono(rt, n, n + 2, call, s);
    ArgumentCall(rt, n + 1, v, x, base);
    var f := Eval(rt, n + 1, v, s);
    assert Evaluates(rt, v, s, f.result);
    if f.IsOk() {
      assert Applies(rt, f.result.value, Some(x), r);
    }
  }

  lemma RespondsCall(rt: Runtime, v: Value, x: XVal, base: Scope, r: Result<XVal>)
    requires Responds(rt, v, Bind("arg", x, base), x, r)
    ensures Evaluates(rt, CreateCall(v, CreateReference("arg")), Bind("arg", x, base), r)
  {
    hide Eval, Apply, CreateCall, CreateReference;
    var s, call := Bind("arg", x, base), CreateCall(v, CreateReference("arg"));
    var f :| Evaluates(rt, v, s, f) && AppliesResult(rt, f, Some(x), r);
    var i: nat :| Eval(rt, i, v, s) == Done(f);
    var j: nat := 0;
    if f.Ok? {
      j :| Apply(rt, j, f.value, Some(x)) == Done(r);
      ApplyMono(rt, j, i + j + 1, f.value, Some(x));
    }
    EvalMono(rt, i, i + j + 1, v, s);
    ArgumentCall(rt, i + j + 1, v, x, base);
    assert Eval(rt, i + j + 2, call, s) == Done(r);
  }

  ghost predicate ClosedCode(rt: Runtime, m: Mode, v: Value) {
    Fits(rt, m, v) && Closed(rt, m, v)
  }

  /** A closed function answers alike wherever it is made. */
  lemma RespondsSame(rt: Runtime, m: Mode, v: Value, s: Scope, t: Scope, x: XVal, y: Result<XVal>)
    returns (z: Result<XVal>)
    requires Covers(rt, m) && ClosedCode(rt, m, v) && Same(rt, m, x, x)
    requires Responds(rt, v, s, x, y)
    ensures Responds(rt, v, t, x, z) && SameResult(rt, m, y, z)
  {
    hide Same, Covers, Fits, Closed, Eval, Apply;
    var f :| Evaluates(rt, v, s, f) && AppliesResult(rt, f, Some(x), y);
    var i: nat :| Eval(rt, i, v, s) == Done(f);
    ClosedSame(rt, m, v, s, t);
    assert SameOutcome(rt, m, Eval(rt, i, v, s), Eval(rt, i, v, t));
    var g := Eval(rt, i, v, t).result;
    assert Evaluates(rt, v, t, g);
    z := y;
    if f.Ok? {
      var j: nat :| Apply(rt, j, f.value, Some(x)) == Done(y);
      ApplySame(rt, m, j, f.value, g.value, Some(x), Some(x));
      z := Apply(rt, j, g.value, Some(x)).result;
      assert Applies(rt, g.value, Some(x), z);
    }
  }

  lemma ChoiceSame(rt: Runtime, m: Mode, c: Value, p: Value, q: Value, s: Scope, t: Scope, x: XVal, r: Result<XVal>)
    returns (r': Result<XVal>)
    requires Covers(rt, m) && Same(rt, m, x, x)
    requires ClosedCode(rt, m, c) && ClosedCode(rt, m, p) && ClosedCode(rt, m, q)
    requires Chooses(rt, c, p, q, s, x, r)
    ensures Chooses(rt, c, p, q, t, x, r') && SameResult(rt, m, r, r')
  {
    hide Same, Covers, ClosedCode, Responds, ChoiceFrom;
    var y :| Responds(rt, c, s, x, y) && ChoiceFrom(rt, y, p, q, s, x, r);
    var z := RespondsSame(rt, m, c, s, t, x, y);
    r' := ChoiceFromSame(rt, m, y, z, p, q, s, t, x, r);
  }

  lemma ChoiceFromSame(rt: Runtime, m: Mode, y: Result<XVal>, z: Result<XVal>, p: Value, q: Value, s: Scope, t: Scope,
    x: XVal, r: Result<XVal>) returns (r': Result<XVal>)
    requires Covers(rt, m) && Same(rt, m, x, x) && ClosedCode(rt, m, p) && ClosedCode(rt, m, q)
    requires ChoiceFrom(rt, y, p, q, s, x, r) && SameResult(rt, m, y, z)
    ensures ChoiceFrom(rt, z, p, q, t, x, r') && SameResult(rt, m, r, r')
  {
    hide Same, Covers, ClosedCode, BranchFrom, Materialize;
    r' := r;
    if y.Ok? {
      PayloadSame(rt, m, y.value, z.value);
      r' := BranchSame(rt, m, Materialize(y.value), p, q, s, t, x, r);
    }
  }

  lemma BranchSame(rt: Runtime, m: Mode, d: Result<Value>, p: Value, q: Value, s: Scope, t: Scope,
    x: XVal, r: Result<XVal>) returns (r': Result<XVal>)
    requires Covers(rt, m) && Same(rt, m, x, x) && ClosedCode(rt, m, p) && ClosedCode(rt, m, q)
    requires BranchFrom(rt, d, p, q, s, x, r)
    ensures BranchFrom(rt, d, p, q, t, x, r') && SameResult(rt, m, r, r')
  {
    hide Same, Covers, ClosedCode, Responds, IsBoolean, BooleanOf;
    r' := r;
    if d.Ok? && IsBoolean(d.value) {
      if BooleanOf(d.value) {
        r' := RespondsSame(rt, m, p, s, t, x, r);
      } else {
        r' := RespondsSame(rt, m, q, s, t, x, r);
      }
    }
  }

  lemma PayloadSame(rt: Runtime, m: Mode, x: XVal, y: XVal)
    requires Same(rt, m, x, y)
    ensures Materialize(x) == Materialize(y)
  {
    EmbedSame(rt, m, x, y);
  }

  lemma IfToChoice(rt: Runtime, c: Value, p: Value, q: Value, base: Scope, x: XVal, r: Result<XVal>)
    requires IfMeans(rt, CreateCall(c, CreateReference("arg")), CreateCall(p, CreateReference("arg")),
                     CreateCall(q, CreateReference("arg")), Bind("arg", x, base), r)
    ensures Chooses(rt, c, p, q, Bind("arg", x, base), x, r)
  {
    var s, arg := Bind("arg", x, base), CreateReference("arg");
    hide Evaluates, Responds, CreateCall, CreateReference, IfFrom, ChoiceFrom;
    var y :| Evaluates(rt, CreateCall(c, arg), s, y) && IfFrom(rt, y, CreateCall(p, arg), CreateCall(q, arg), s, r);
    CallResponds(rt, c, x, base, y);
    BranchIsChoice(rt, y, p, q, base, x, r);
  }

  lemma ChoiceToIf(rt: Runtime, c: Value, p: Value, q: Value, base: Scope, x: XVal, r: Result<XVal>)
    requires Chooses(rt, c, p, q, Bind("arg", x, base), x, r)
    ensures IfMeans(rt, CreateCall(c, CreateReference("arg")), CreateCall(p, CreateReference("arg")),
                    CreateCall(q, CreateReference("arg")), Bind("arg", x, base), r)
  {
    var s, arg := Bind("arg", x, base), CreateReference("arg");
    hide Evaluates, Responds, CreateCall, CreateReference, IfFrom, ChoiceFrom;
    var y :| Responds(rt, c, s, x, y) && ChoiceFrom(rt, y, p, q, s, x, r);
    RespondsCall(rt, c, x, base, y);
    BranchIsChoice(rt, y, p, q, base, x, r);
  }

  lemma BranchIsChoice(rt: Runtime, y: Result<XVal>, p: Value, q: Value, base: Scope, x: XVal, r: Result<XVal>)
    ensures IfFrom(rt, y, CreateCall(p, CreateReference("arg")), CreateCall(q, CreateReference("arg")), Bind("arg", x, base), r)
       <==> ChoiceFrom(rt, y, p, q, Bind("arg", x, base), x, r)
  {
    var s, arg := Bind("arg", x, base), CreateReference("arg");
    hide Evaluates, Responds, CreateCall, CreateReference, Materialize, IsBoolean, BooleanOf;
    if y.Ok? {
      var d := Materialize(y.value);
      if d.Ok? && IsBoolean(d.value) {
        var v := if BooleanOf(d.value) then p else q;
        if Evaluates(rt, CreateCall(v, arg), s, r) { CallResponds(rt, v, x, base, r); }
        if Responds(rt, v, s, x, r) { RespondsCall(rt, v, x, base, r); }
      }
    }
  }

  /** For closed `c`, `p` and `q`, the lambda that `CreateLambdaForConditional` makes of them
      answers `x` exactly as `if c(x) then p(x) else q(x)` does, where the three functions are
      made outside of it. */
  lemma ClosedConditional(rt: Runtime, m: Mode, c: Value, p: Value, q: Value, base: Scope, x: XVal, r: Result<XVal>)
    requires rt.kind(CONDITIONAL_URI) == ControlFlow(Conditional)
    requires Covers(rt, m) && Same(rt, m, x, x)
    requires ClosedCode(rt, m, c) && ClosedCode(rt, m, p) && ClosedCode(rt, m, q)
    ensures Applies(rt, Closure("arg", CreateLambdaForConditional(c, p, q).result, base), Some(x), r) ==>
              exists r' :: Chooses(rt, c, p, q, base, x, r') && SameResult(rt, m, r, r')
    ensures Chooses(rt, c, p, q, base, x, r) ==>
              exists r' :: Applies(rt, Closure("arg", CreateLambdaForConditional(c, p, q).result, base), Some(x), r')
                && SameResult(rt, m, r, r')
  {
    hide Same, Covers, ClosedCode, Chooses, IfMeans, Applies, SameResult;
    var s := Bind("arg", x, base);
    if Applies(rt, Closure("arg", CreateLambdaForConditional(c, p, q).result, base), Some(x), r) {
      ConditionalMeaning(rt, c, p, q, base, x, r);
      IfToChoice(rt, c, p, q, base, x, r);
      var r' := ChoiceSame(rt, m, c, p, q, s, base, x, r);
    }
    if Chooses(rt, c, p, q, base, x, r) {
      var r' := ChoiceSame(rt, m, c, p, q, base, s, x, r);
      ChoiceToIf(rt, c, p, q, base, x, r');
      ConditionalMeaning(rt, c, p, q, base, x, r');
    }
  }
}
