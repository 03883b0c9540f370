/** Runs that use the structs of the child executor only as what they are. */
module StructUse {
  import opened Common
  import opened Ir
  import opened Evaluator

  // No selection from an embedded struct is out of range, and no embedded struct is called. A
  // `strict` run does not select from a failed future or call one either, so that it cannot
  // mistake a struct that failed for something else. There is one predicate for each function
  // of `Evaluator`, along the same run.

  predicate IsStruct(y: XVal) {
    y.Embedded? && y.future.Ok? && y.future.value.Struct?
  }

  predicate Failed(y: XVal) {
    y.Embedded? && y.future.Err?
  }

  predicate InRange(strict: bool, y: XVal, index: nat) {
    (IsStruct(y) ==> index < |y.future.value.elements|) && (strict ==> !Failed(y))
  }

  ghost predicate ProperEval(rt: Runtime, strict: bool, n: nat, v: Value, s: Scope)
    decreases n, 0, 0
  {
    n > 0 ==>
      match v
      case Struct(elements, _) => ProperAll(rt, strict, n - 1, elements, s)
      case Select(source, index, _) =>
        var y := Eval(rt, n - 1, source, s);
        ProperEval(rt, strict, n - 1, source, s) && (y.IsOk() ==> InRange(strict, y.result.value, U32(index)))
      case Call(f, a, _) =>
        var g, b := Eval(rt, n - 1, f, s), EvalArgument(rt, n - 1, a, s);
        && ProperEval(rt, strict, n - 1, f, s) && (g.IsOk() && a.Some? ==> ProperEval(rt, strict, n - 1, a.value, s))
        && (g.IsOk() && b.IsOk() ==> ProperApply(rt, strict, n - 1, g.result.value, b.result.value))
      case Block(locals, result, _) => ProperBlock(rt, strict, n - 1, locals, result, s)
      case _ => true
  }

  ghost predicate ProperAll(rt: Runtime, strict: bool, n: nat, vs: seq<Value>, s: Scope)
    decreases n, 1, |vs|
  {
    vs != [] ==> ProperEval(rt, strict, n, vs[0], s) && (Eval(rt, n, vs[0], s).IsOk() ==> ProperAll(rt, strict, n, vs[1..], s))
  }

  ghost predicate ProperBlock(rt: Runtime, strict: bool, n: nat, locals: seq<Local>, result: Value, s: Scope)
    decreases n, 1, |locals|
  {
    if locals == [] then ProperEval(rt, strict, n, result, s)
    else
      var x := Eval(rt, n, locals[0].value, s);
      && ProperEval(rt, strict, n, locals[0].value, s)
      && (x.IsOk() ==> ProperBlock(rt, strict, n, locals[1..], result, Bind(locals[0].name, x.result.value, s)))
  }

  ghost predicate ProperApply(rt: Runtime, strict: bool, n: nat, f: XVal, a: Option<XVal>)
    decreases n, 0, 0
  {
    n > 0 ==>
      match f
      case Embedded(_) => !IsStruct(f) && (strict ==> !Failed(f))
      case Structure(_) => true
      case Closure(param, body, scope) =>
        ProperEval(rt, strict, n - 1, body, if a.Some? then Bind(param, a.value, scope) else scope)
      case Operator(op, fixed, scope) => ProperExec(rt, strict, n - 1, op, fixed, a, scope)
  }

  ghost predicate ProperExec(rt: Runtime, strict: bool, n: nat, op: Op, fixed: Option<Value>, a: Option<XVal>, s: Scope)
    decreases n, 3, 0
  {
    match op
    case SerialChain => a.Some? ==> ProperSerial(rt, strict, n, FixedElements(fixed), a.value, s)
    case BreakableChain => a.Some? ==> ProperBreakable(rt, strict, n, FixedElements(fixed), a.value, s)
    case Conditional =>
      a.Some? && Materialize(a.value).Ok? ==>
        ProperEval(rt, strict, n, if BooleanOf(Materialize(a.value).value) then FixedAt(fixed, 0) else FixedAt(fixed, 1), s)
    case Fallback => ProperFallback(rt, strict, n, FixedElements(fixed), a, s)
    case ParallelMap =>
      a.Some? && fixed.Some? && Materialize(a.value).Ok? ==>
        var f := Create(rt, n, fixed.value, s);
        && ProperEval(rt, strict, n, fixed.value, s)
        && (f.IsOk() ==> ProperMap(rt, strict, n, f.result.value, ElementsOf(Materialize(a.value).value), s))
    case Repeat =>
      var f := Create(rt, n, FixedAt(fixed, 1), s);
      && ProperEval(rt, strict, n, FixedAt(fixed, 1), s)
      && (f.IsOk() && a.Some? ==> ProperRepeat(rt, strict, n, f.result.value, Int32Of(FixedAt(fixed, 0)), a.value))
    case While =>
      var c, f := Create(rt, n, FixedAt(fixed, 0), s), Create(rt, n, FixedAt(fixed, 1), s);
      && ProperEval(rt, strict, n, FixedAt(fixed, 0), s) && (c.IsOk() ==> ProperEval(rt, strict, n, FixedAt(fixed, 1), s))
      && (c.IsOk() && f.IsOk() && a.Some? ==> ProperWhile(rt, strict, n, c.result.value, f.result.value, a.value))
    case RepeatedConditionalChain =>
      var params := FixedElements(fixed);
      var bodies := if params == [] then [] else params[1..];
      var fs := CreateAll(rt, n, bodies, s);
      && ProperAll(rt, strict, n, bodies, s)
      && (fs.IsOk() && a.Some? ==> ProperRounds(rt, strict, n, Int32Of(FixedAt(fixed, 0)), fs.result.value, a.value, s))
  }

  ghost predicate ProperSerial(rt: Runtime, strict: bool, n: nat, fns: seq<Value>, x: XVal, s: Scope)
    decreases n, 1, |fns|
  {
    fns != [] ==>
      var f := Create(rt, n, fns[0], s);
      && ProperEval(rt, strict, n, fns[0], s)
      && (f.IsOk() ==>
            var y := Apply(rt, n, f.result.value, Some(x));
            && ProperApply(rt, strict, n, f.result.value, Some(x))
            && (y.IsOk() ==> ProperSerial(rt, strict, n, fns[1..], y.result.value, s)))
  }

  ghost predicate ProperBreakable(rt: Runtime, strict: bool, n: nat, fns: seq<Value>, x: XVal, s: Scope)
    decreases n, 1, |fns|
  {
    fns != [] ==>
      var f := Create(rt, n, fns[0], s);
      && ProperEval(rt, strict, n, fns[0], s)
      && (f.IsOk() ==>
            var y := Ask(rt, n, f.result.value, Some(x));
            && ProperApply(rt, strict, n, f.result.value, Some(x))
            && (y.IsOk() && !BooleanOf(y.result.value.1) ==>
                  ProperBreakable(rt, strict, n, fns[1..], if IsBoolean(y.result.value.1) then x else y.result.value.0, s)))
  }

  ghost predicate ProperFallback(rt: Runtime, strict: bool, n: nat, fns: seq<Value>, a: Option<XVal>, s: Scope)
    decreases n, 2, |fns|
  {
    fns != [] ==>
      var f, y := Create(rt, n, fns[0], s), Candidate(rt, n, fns[0], a, s);
      && ProperEval(rt, strict, n, fns[0], s)
      && (f.IsOk() ==> ProperApply(rt, strict, n, f.result.value, a))
      && (y.Done? && y.result.Err? ==> ProperFallback(rt, strict, n, fns[1..], a, s))
  }

  ghost predicate ProperMap(rt: Runtime, strict: bool, n: nat, f: XVal, ds: seq<Value>, s: Scope)
    decreases n, 1, |ds|
  {
    ds != [] ==>
      var x := Create(rt, n, ds[0], s);
      && ProperEval(rt, strict, n, ds[0], s)
      && (x.IsOk() ==>
            && ProperApply(rt, strict, n, f, Some(x.result.value))
            && (Apply(rt, n, f, Some(x.result.value)).IsOk() ==> ProperMap(rt, strict, n, f, ds[1..], s)))
  }

  ghost predicate ProperRepeat(rt: Runtime, strict: bool, n: nat, body: XVal, k: int, x: XVal)
    decreases n, 1, if k < 0 then 0 else k
  {
    k > 0 ==>
      var y := Apply(rt, n, body, Some(x));
      && ProperApply(rt, strict, n, body, Some(x))
      && (y.IsOk() ==> ProperRepeat(rt, strict, n, body, k - 1, y.result.value))
  }

  ghost predicate ProperWhile(rt: Runtime, strict: bool, n: nat, condition: XVal, body: XVal, x: XVal)
    decreases n, 1, 0
  {
    n > 0 ==>
      var d := Ask(rt, n - 1, condition, Some(x));
      && ProperApply(rt, strict, n - 1, condition, Some(x))
      && (d.IsOk() && BooleanOf(d.result.value.1) ==>
            var y := Apply(rt, n - 1, body, Some(x));
            && ProperApply(rt, strict, n - 1, body, Some(x))
            && (y.IsOk() ==> ProperWhile(rt, strict, n - 1, condition, body, y.result.value)))
  }

  ghost predicate ProperRound(rt: Runtime, strict: bool, n: nat, fns: seq<XVal>, x: XVal, s: Scope)
    decreases n, 1, |fns|
  {
    fns != [] ==>
      var y := Ask(rt, n, fns[0], Some(x));
      && ProperApply(rt, strict, n, fns[0], Some(x))
      && (y.IsOk() ==>
            var d := y.result.value.1;
            if IsBoolean(d) then BooleanOf(d) || ProperRound(rt, strict, n, fns[1..], x, s)
            else
              var state := Create(rt, n, d, s);
              && ProperEval(rt, strict, n, d, s)
              && (state.IsOk() ==> ProperRound(rt, strict, n, fns[1..], state.result.value, s)))
  }

  ghost predicate ProperRounds(rt: Runtime, strict: bool, n: nat, k: int, fns: seq<XVal>, x: XVal, s: Scope)
    decreases n, 2, if k < 0 then 0 else k
  {
    k > 0 ==>
      var r := Round(rt, n, fns, x, s);
      && ProperRound(rt, strict, n, fns, x, s)
      && (r.IsOk() && !r.result.value.1 ==> ProperRounds(rt, strict, n, k - 1, fns, r.result.value.0, s))
  }
}
