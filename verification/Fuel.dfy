/** More fuel never changes an outcome, so evaluation is a partial function. Evaluation and
    every handler loop have one lemma each, and the lemmas call one another as the functions
    do: whatever has finished within a bound finishes within a larger one in the same way. */
module Fuel {
  import opened Common
  import opened Ir
  import opened Evaluator

  lemma {:induction false} EvalMono(rt: Runtime, n: nat, m: nat, v: Value, s: Scope)
    requires n <= m && Eval(rt, n, v, s).Done?
    ensures Eval(rt, m, v, s) == Eval(rt, n, v, s)
    decreases n, 0, 0
  {
    match v
    case NotSet(_) =>
    case Leaf(_, _) =>
    case Ref(_, _) =>
    case Lambda(_, _, _) =>
    case Intrinsic(_, _, _) =>
    case Struct(elements, _) => EvalAllMono(rt, n - 1, m - 1, elements, s);
    case Select(source, _, _) => EvalMono(rt, n - 1, m - 1, source, s);
    case Block(locals, result, _) => EvalBlockMono(rt, n - 1, m - 1, locals, result, s);
    case Call(f, a, _) =>
      EvalMono(rt, n - 1, m - 1, f, s);
      var fn := Eval(rt, n - 1, f, s);
      if fn.IsOk() {
        EvalArgumentMono(rt, n - 1, m - 1, a, s);
        var arg := EvalArgument(rt, n - 1, a, s);
        if arg.IsOk() {
          ApplyMono(rt, n - 1, m - 1, fn.result.value, arg.result.value);
        }
      }
  }

  lemma {:induction false} EvalArgumentMono(rt: Runtime, n: nat, m: nat, a: Option<Value>, s: Scope)
    requires n <= m && EvalArgument(rt, n, a, s).Done?
    ensures EvalArgument(rt, m, a, s) == EvalArgument(rt, n, a, s)
    decreases n, 1, 0
  {
    if a.Some? {
      EvalMono(rt, n, m, a.value, s);
    }
  }

  lemma {:induction false} EvalAllMono(rt: Runtime, n: nat, m: nat, vs: seq<Value>, s: Scope)
    requires n <= m && EvalAll(rt, n, vs, s).Done?
    ensures EvalAll(rt, m, vs, s) == EvalAll(rt, n, vs, s)
    decreases n, 1, |vs|
  {
    if vs != [] {
      EvalMono(rt, n, m, vs[0], s);
      if Eval(rt, n, vs[0], s).IsOk() {
        EvalAllMono(rt, n, m, vs[1..], s);
      }
    }
  }

  lemma {:induction false} EvalBlockMono(rt: Runtime, n: nat, m: nat, locals: seq<Local>, result: Value, s: Scope)
    requires n <= m && EvalBlock(rt, n, locals, result, s).Done?
    ensures EvalBlock(rt, m, locals, result, s) == EvalBlock(rt, n, locals, result, s)
    decreases n, 1, |locals|
  {
    if locals == [] {
      EvalMono(rt, n, m, result, s);
    } else {
      EvalMono(rt, n, m, locals[0].value, s);
      var x := Eval(rt, n, locals[0].value, s);
      if x.IsOk() {
        EvalBlockMono(rt, n, m, locals[1..], result, Bind(locals[0].name, x.result.value, s));
      }
    }
  }

  lemma {:induction false} ApplyMono(rt: Runtime, n: nat, m: nat, f: XVal, a: Option<XVal>)
    requires n <= m && Apply(rt, n, f, a).Done?
    ensures Apply(rt, m, f, a) == Apply(rt, n, f, a)
    decreases n, 0, 0
  {
    match f
    case Embedded(_) =>
    case Structure(_) =>
    case Closure(param, body, scope) =>
      EvalMono(rt, n - 1, m - 1, body, if a.Some? then Bind(param, a.value, scope) else scope);
    case Operator(op, fixed, scope) => ExecMono(rt, n - 1, m - 1, op, fixed, a, scope);
  }

  lemma {:induction false} AskMono(rt: Runtime, n: nat, m: nat, f: XVal, a: Option<XVal>)
    requires n <= m && Ask(rt, n, f, a).Done?
    ensures Ask(rt, m, f, a) == Ask(rt, n, f, a)
    decreases n, 0, 1
  {
    ApplyMono(rt, n, m, f, a);
  }

  lemma {:induction false} CreateMono(rt: Runtime, n: nat, m: nat, v: Value, s: Scope)
    requires n <= m && Create(rt, n, v, s).Done?
    ensures Create(rt, m, v, s) == Create(rt, n, v, s)
    decreases n, 0, 1
  {
    if !v.NotSet? {
      EvalMono(rt, n, m, v, s);
    }
  }

  lemma {:induction false} ExecMono(rt: Runtime, n: nat, m: nat, op: Op, fixed: Option<Value>, a: Option<XVal>, s: Scope)
    requires n <= m && Exec(rt, n, op, fixed, a, s).Done?
    ensures Exec(rt, m, op, fixed, a, s) == Exec(rt, n, op, fixed, a, s)
    decreases n, 3, 0
  {
    match op
    case SerialChain => if a.Some? { SerialMono(rt, n, m, FixedElements(fixed), a.value, s); }
    case BreakableChain => if a.Some? { BreakableMono(rt, n, m, FixedElements(fixed), a.value, s); }
    case Conditional =>
      if a.Some? && Materialize(a.value).Ok? && IsBoolean(Materialize(a.value).value) {
        CreateMono(rt, n, m, FixedAt(fixed, if BooleanOf(Materialize(a.value).value) then 0 else 1), s);
      }
    case Fallback => FallbackMono(rt, n, m, FixedElements(fixed), a, Unavailable, s);
    case ParallelMap =>
      if a.Some? && fixed.Some? && Materialize(a.value).Ok? {
        CreateMono(rt, n, m, fixed.value, s);
        var f := Create(rt, n, fixed.value, s);
        if f.IsOk() {
          MapMono(rt, n, m, f.result.value, ElementsOf(Materialize(a.value).value), s);
        }
      }
    case Repeat =>
      CreateMono(rt, n, m, FixedAt(fixed, 1), s);
      var body := Create(rt, n, FixedAt(fixed, 1), s);
      if body.IsOk() && a.Some? {
        RepeatMono(rt, n, m, body.result.value, Int32Of(FixedAt(fixed, 0)), a.value);
      }
    case While =>
      CreateMono(rt, n, m, FixedAt(fixed, 0), s);
      var condition := Create(rt, n, FixedAt(fixed, 0), s);
      if condition.IsOk() {
        CreateMono(rt, n, m, FixedAt(fixed, 1), s);
        var body := Create(rt, n, FixedAt(fixed, 1), s);
        if body.IsOk() && a.Some? {
          WhileMono(rt, n, m, condition.result.value, body.result.value, a.value);
        }
      }
    case RepeatedConditionalChain =>
      var params := FixedElements(fixed);
      var bodies := if params == [] then [] else params[1..];
      CreateAllMono(rt, n, m, bodies, s);
      var fns := CreateAll(rt, n, bodies, s);
      if fns.IsOk() && a.Some? {
        RoundsMono(rt, n, m, Int32Of(FixedAt(fixed, 0)), fns.result.value, a.value, s);
      }
  }

  lemma {:induction false} CreateAllMono(rt: Runtime, n: nat, m: nat, vs: seq<Value>, s: Scope)
    requires n <= m && CreateAll(rt, n, vs, s).Done?
    ensures CreateAll(rt, m, vs, s) == CreateAll(rt, n, vs, s)
    decreases n, 1, |vs|
  {
    if vs != [] {
      CreateMono(rt, n, m, vs[0], s);
      if Create(rt, n, vs[0], s).IsOk() {
        CreateAllMono(rt, n, m, vs[1..], s);
      }
    }
  }

  lemma {:induction false} SerialMono(rt: Runtime, n: nat, m: nat, fns: seq<Value>, x: XVal, s: Scope)
    requires n <= m && SerialFrom(rt, n, fns, x, s).Done?
    ensures SerialFrom(rt, m, fns, x, s) == SerialFrom(rt, n, fns, x, s)
    decreases n, 1, |fns|
  {
    if fns != [] {
      CreateMono(rt, n, m, fns[0], s);
      var f := Create(rt, n, fns[0], s);
      if f.IsOk() {
        ApplyMono(rt, n, m, f.result.value, Some(x));
        var y := Apply(rt, n, f.result.value, Some(x));
        if y.IsOk() {
          SerialMono(rt, n, m, fns[1..], y.result.value, s);
        }
      }
    }
  }

  lemma {:induction false} BreakableMono(rt: Runtime, n: nat, m: nat, fns: seq<Value>, x: XVal, s: Scope)
    requires n <= m && BreakableFrom(rt, n, fns, x, s).Done?
    ensures BreakableFrom(rt, m, fns, x, s) == BreakableFrom(rt, n, fns, x, s)
    decreases n, 1, |fns|
  {
    if fns != [] {
      CreateMono(rt, n, m, fns[0], s);
      var f := Create(rt, n, fns[0], s);
      if f.IsOk() {
        AskMono(rt, n, m, f.result.value, Some(x));
        var y := Ask(rt, n, f.result.value, Some(x));
        if y.IsOk() && !BooleanOf(y.result.value.1) {
          BreakableMono(rt, n, m, fns[1..], if IsBoolean(y.result.value.1) then x else y.result.value.0, s);
        }
      }
    }
  }

  lemma {:induction false} CandidateMono(rt: Runtime, n: nat, m: nat, v: Value, a: Option<XVal>, s: Scope)
    requires n <= m && Candidate(rt, n, v, a, s).Done?
    ensures Candidate(rt, m, v, a, s) == Candidate(rt, n, v, a, s)
    decreases n, 1, 0
  {
    CreateMono(rt, n, m, v, s);
    var f := Create(rt, n, v, s);
    if f.IsOk() {
      AskMono(rt, n, m, f.result.value, a);
    }
  }

  lemma {:induction false} FallbackMono(
      rt: Runtime, n: nat, m: nat, fns: seq<Value>, a: Option<XVal>, error: Code, s: Scope)
    requires n <= m && FallbackFrom(rt, n, fns, a, error, s).Done?
    ensures FallbackFrom(rt, m, fns, a, error, s) == FallbackFrom(rt, n, fns, a, error, s)
    decreases n, 2, |fns|
  {
    if fns != [] {
      CandidateMono(rt, n, m, fns[0], a, s);
      var y := Candidate(rt, n, fns[0], a, s);
      if y.result.Err? {
        FallbackMono(rt, n, m, fns[1..], a, y.result.code, s);
      }
    }
  }

  lemma {:induction false} MapMono(rt: Runtime, n: nat, m: nat, f: XVal, ds: seq<Value>, s: Scope)
    requires n <= m && MapFrom(rt, n, f, ds, s).Done?
    ensures MapFrom(rt, m, f, ds, s) == MapFrom(rt, n, f, ds, s)
    decreases n, 1, |ds|
  {
    if ds != [] {
      CreateMono(rt, n, m, ds[0], s);
      var x := Create(rt, n, ds[0], s);
      if x.IsOk() {
        ApplyMono(rt, n, m, f, Some(x.result.value));
        if Apply(rt, n, f, Some(x.result.value)).IsOk() {
          MapMono(rt, n, m, f, ds[1..], s);
        }
      }
    }
  }

  lemma {:induction false} RepeatMono(rt: Runtime, n: nat, m: nat, body: XVal, k: int, x: XVal)
    requires n <= m && RepeatFrom(rt, n, body, k, x).Done?
    ensures RepeatFrom(rt, m, body, k, x) == RepeatFrom(rt, n, body, k, x)
    decreases n, 1, if k < 0 then 0 else k
  {
    if k > 0 {
      ApplyMono(rt, n, m, body, Some(x));
      var y := Apply(rt, n, body, Some(x));
      if y.IsOk() {
        RepeatMono(rt, n, m, body, k - 1, y.result.value);
      }
    }
  }

  lemma {:induction false} WhileMono(rt: Runtime, n: nat, m: nat, condition: XVal, body: XVal, x: XVal)
    requires n <= m && WhileFrom(rt, n, condition, body, x).Done?
    ensures WhileFrom(rt, m, condition, body, x) == WhileFrom(rt, n, condition, body, x)
    decreases n, 1, 0
  {
    AskMono(rt, n - 1, m - 1, condition, Some(x));
    var c := Ask(rt, n - 1, condition, Some(x));
    if c.IsOk() && BooleanOf(c.result.value.1) {
      ApplyMono(rt, n - 1, m - 1, body, Some(x));
      var y := Apply(rt, n - 1, body, Some(x));
      if y.IsOk() {
        WhileMono(rt, n - 1, m - 1, condition, body, y.result.value);
      }
    }
  }

  lemma {:induction false} RoundMono(rt: Runtime, n: nat, m: nat, fns: seq<XVal>, x: XVal, s: Scope)
    requires n <= m && Round(rt, n, fns, x, s).Done?
    ensures Round(rt, m, fns, x, s) == Round(rt, n, fns, x, s)
    decreases n, 1, |fns|
  {
    if fns != [] {
      AskMono(rt, n, m, fns[0], Some(x));
      var y := Ask(rt, n, fns[0], Some(x));
      if y.IsOk() {
        var d := y.result.value.1;
        if !IsBoolean(d) {
          CreateMono(rt, n, m, d, s);
          var state := Create(rt, n, d, s);
          if state.IsOk() {
            RoundMono(rt, n, m, fns[1..], state.result.value, s);
          }
        } else if !BooleanOf(d) {
          RoundMono(rt, n, m, fns[1..], x, s);
        }
      }
    }
  }

  lemma {:induction false} RoundsMono(rt: Runtime, n: nat, m: nat, k: int, fns: seq<XVal>, x: XVal, s: Scope)
    requires n <= m && RoundsFrom(rt, n, k, fns, x, s).Done?
    ensures RoundsFrom(rt, m, k, fns, x, s) == RoundsFrom(rt, n, k, fns, x, s)
    decreases n, 2, if k < 0 then 0 else k
  {
    if k > 0 {
      RoundMono(rt, n, m, fns, x, s);
      var r := Round(rt, n, fns, x, s);
      if r.IsOk() && !r.result.value.1 {
        RoundsMono(rt, n, m, k - 1, fns, r.result.value.0, s);
      }
    }
  }

  /** Evaluation is deterministic: at most one result, and every large enough bound gives it. */
  lemma EvaluatesUnique(rt: Runtime, v: Value, s: Scope, r: Result<XVal>, r': Result<XVal>)
    requires Evaluates(rt, v, s, r) && Evaluates(rt, v, s, r')
    ensures r == r'
  {
    var n: nat :| Eval(rt, n, v, s) == Done(r);
    var m: nat :| Eval(rt, m, v, s) == Done(r');
    if n <= m { EvalMono(rt, n, m, v, s); } else { EvalMono(rt, m, n, v, s); }
  }
}
