/** Evaluation in two scopes that agree on the free references of the code gives the same
    outcome. The proof follows the evaluator, one lemma for each of its functions. */
module ScopeRelevance {
  import opened Common
  import opened Ir
  import opened Evaluator
  import opened Relevance

  lemma {:induction false} EvalSame(rt: Runtime, m: Mode, n: nat, v: Value, s: Scope, t: Scope)
    requires Covers(rt, m) && Fits(rt, m, v) && SameEnv(rt, m, Free(rt, m, v), s, t)
    ensures SameOutcome(rt, m, Eval(rt, n, v, s), Eval(rt, n, v, t))
    decreases n, 0, 0
  {
    if n == 0 { return; }
    hide Same, Fits, Covers;
    match v
    case NotSet(_) => EvalAtomSame(rt, m, n, v, s, t);
    case Leaf(_, _) => EvalAtomSame(rt, m, n, v, s, t);
    case Lambda(_, _, _) => EvalAtomSame(rt, m, n, v, s, t);
    case Intrinsic(_, _, _) => EvalAtomSame(rt, m, n, v, s, t);
    case Ref(name, _) => ResolveSame(rt, m, s, t, name);
    case Struct(_, _) => EvalStructSame(rt, m, n, v, s, t);
    case Select(_, _, _) => EvalSelectSame(rt, m, n, v, s, t);
    case Block(locals, result, _) =>
      BlockFits(rt, m, v);
      EvalBlockSame(rt, m, n - 1, locals, result, s, t);
    case Call(_, _, _) => EvalCallSame(rt, m, n, v, s, t);
  }

  lemma {:induction false} EvalAtomSame(rt: Runtime, m: Mode, n: nat, v: Value, s: Scope, t: Scope)
    requires n > 0 && (v.NotSet? || v.Leaf? || v.Lambda? || v.Intrinsic?)
    requires Covers(rt, m) && Fits(rt, m, v) && SameEnv(rt, m, Free(rt, m, v), s, t)
    ensures SameOutcome(rt, m, Eval(rt, n, v, s), Eval(rt, n, v, t))
  {
    if v.Lambda? {
      assert Free(rt, m, v) == Free(rt, m, Lambda(v.param, v.result, NO_META));
    }
  }

  lemma {:induction false} BlockFits(rt: Runtime, m: Mode, v: Value)
    requires v.Block? && Fits(rt, m, v)
    ensures Fits(rt, m, v.result) && forall i :: 0 <= i < |v.locals| ==> Fits(rt, m, v.locals[i].value)
  {
  }

  lemma {:induction false} EvalSelectSame(rt: Runtime, m: Mode, n: nat, v: Value, s: Scope, t: Scope)
    requires n > 0 && v.Select?
    requires Covers(rt, m) && Fits(rt, m, v) && SameEnv(rt, m, Free(rt, m, v), s, t)
    ensures SameOutcome(rt, m, Eval(rt, n, v, s), Eval(rt, n, v, t))
    decreases n - 1, 2, 0
  {
    EvalSame(rt, m, n - 1, v.source, s, t);
    var x, y := Eval(rt, n - 1, v.source, s), Eval(rt, n - 1, v.source, t);
    if x.IsOk() {
      SelectionSame(rt, m, x.result.value, y.result.value, U32(v.index));
    }
  }

  lemma {:induction false} EvalStructSame(rt: Runtime, m: Mode, n: nat, v: Value, s: Scope, t: Scope)
    requires n > 0 && v.Struct?
    requires Covers(rt, m) && Fits(rt, m, v) && SameEnv(rt, m, Free(rt, m, v), s, t)
    ensures SameOutcome(rt, m, Eval(rt, n, v, s), Eval(rt, n, v, t))
    decreases n - 1, 2, 0
  {
    forall i | 0 <= i < |v.elements|
      ensures SameEnv(rt, m, Free(rt, m, v.elements[i]), s, t)
    {
      EnvSubset(rt, m, Free(rt, m, v.elements[i]), Free(rt, m, v), s, t);
    }
    EvalAllSame(rt, m, n - 1, v.elements, s, t);
    var xs, ys := EvalAll(rt, n - 1, v.elements, s), EvalAll(rt, n - 1, v.elements, t);
    if xs.IsOk() {
      StructureSame(rt, m, xs.result.value, ys.result.value);
    }
  }

  lemma {:induction false} EvalCallSame(rt: Runtime, m: Mode, n: nat, v: Value, s: Scope, t: Scope)
    requires n > 0 && v.Call?
    requires Covers(rt, m) && Fits(rt, m, v) && SameEnv(rt, m, Free(rt, m, v), s, t)
    ensures SameOutcome(rt, m, Eval(rt, n, v, s), Eval(rt, n, v, t))
    decreases n - 1, 2, 0
  {
    var f, a := v.fn, v.argument;
    EnvSubset(rt, m, Free(rt, m, f), Free(rt, m, v), s, t);
    EvalSame(rt, m, n - 1, f, s, t);
    if a.Some? {
      EnvSubset(rt, m, Free(rt, m, a.value), Free(rt, m, v), s, t);
      EvalSame(rt, m, n - 1, a.value, s, t);
    }
    var fs, ft := Eval(rt, n - 1, f, s), Eval(rt, n - 1, f, t);
    var b, c := EvalArgument(rt, n - 1, a, s), EvalArgument(rt, n - 1, a, t);
    if fs.IsOk() && b.IsOk() {
      ApplySame(rt, m, n - 1, fs.result.value, ft.result.value, b.result.value, c.result.value);
    }
  }

  lemma {:induction false} EvalAllSame(rt: Runtime, m: Mode, n: nat, vs: seq<Value>, s: Scope, t: Scope)
    requires Covers(rt, m)
    requires forall i :: 0 <= i < |vs| ==> Fits(rt, m, vs[i]) && SameEnv(rt, m, Free(rt, m, vs[i]), s, t)
    ensures SameOutcomes(rt, m, EvalAll(rt, n, vs, s), EvalAll(rt, n, vs, t))
    decreases n, 1, |vs|
  {
    hide SameAll, Same, Covers, Ask, Create;
    SameAllEmpty(rt, m);
    if vs != [] {
      EvalSame(rt, m, n, vs[0], s, t);
      EvalAllSame(rt, m, n, vs[1..], s, t);
      var x, xs := Eval(rt, n, vs[0], s), EvalAll(rt, n, vs[1..], s);
      var y, ys := Eval(rt, n, vs[0], t), EvalAll(rt, n, vs[1..], t);
      if x.IsOk() && xs.IsOk() {
        SameAllCons(rt, m, x.result.value, y.result.value, xs.result.value, ys.result.value);
      }
    }
  }

  lemma {:induction false} EvalBlockSame(
      rt: Runtime, m: Mode, n: nat, locals: seq<Local>, result: Value, s: Scope, t: Scope)
    requires Covers(rt, m) && Fits(rt, m, result) && forall i :: 0 <= i < |locals| ==> Fits(rt, m, locals[i].value)
    requires SameEnv(rt, m, FreeLocals(rt, m, locals, Free(rt, m, result)), s, t)
    ensures SameOutcome(rt, m, EvalBlock(rt, n, locals, result, s), EvalBlock(rt, n, locals, result, t))
    decreases n, 1, |locals|
  {
    hide Same, Covers, Ask, Create;
    if locals == [] {
      EvalSame(rt, m, n, result, s, t);
    } else {
      var v, name := locals[0].value, locals[0].name;
      var names := FreeLocals(rt, m, locals, Free(rt, m, result));
      var rest := FreeLocals(rt, m, locals[1..], Free(rt, m, result));
      EnvSubset(rt, m, Free(rt, m, v), names, s, t);
      EnvSubset(rt, m, rest - iset{name}, names, s, t);
      EvalSame(rt, m, n, v, s, t);
      var x, y := Eval(rt, n, v, s), Eval(rt, n, v, t);
      if x.IsOk() {
        EnvBind(rt, m, rest, name, x.result.value, y.result.value, s, t);
        EvalBlockSame(rt, m, n, locals[1..], result, Bind(name, x.result.value, s), Bind(name, y.result.value, t));
      }
    }
  }

  lemma {:induction false} ApplySame(
      rt: Runtime, m: Mode, n: nat, f: XVal, g: XVal, a: Option<XVal>, b: Option<XVal>)
    requires Covers(rt, m) && Same(rt, m, f, g) && SameArgument(rt, m, a, b)
    ensures SameOutcome(rt, m, Apply(rt, n, f, a), Apply(rt, n, g, b))
    decreases n, 0, 0
  {
    if n == 0 { return; }
    match f
    case Embedded(future) => ApplyEmbeddedSame(rt, m, future, a, b);
    case Structure(_) =>
    case Closure(param, body, s) =>
      var t := g.scope;
      assert Free(rt, m, body) - iset{param} <= Free(rt, m, Lambda(param, body, NO_META));
      if a.Some? {
        EnvSubset(rt, m, Free(rt, m, body) - iset{param}, Free(rt, m, Lambda(param, body, NO_META)), s, t);
        EnvBind(rt, m, Free(rt, m, body), param, a.value, b.value, s, t);
        EvalSame(rt, m, n - 1, body, Bind(param, a.value, s), Bind(param, b.value, t));
      } else {
        assert Free(rt, m, body) == Free(rt, m, Lambda(param, body, NO_META));
        EvalSame(rt, m, n - 1, body, s, t);
      }
    case Operator(op, fixed, s) => ExecSame(rt, m, n - 1, op, fixed, a, b, s, g.scope);
  }

  // ----- the control-flow handlers -----

  /** Two outcomes of `Ask`: the same value and the same payload. */
  ghost predicate SameAnswer(rt: Runtime, m: Mode, o: Outcome<(XVal, Value)>, p: Outcome<(XVal, Value)>) {
    if o.IsOk() then
      && p.IsOk() && Same(rt, m, o.result.value.0, p.result.value.0)
      && o.result.value.1 == p.result.value.1 && FitsData(rt, m, o.result.value.1)
    else o == p
  }

  lemma {:induction false} AskSame(rt: Runtime, m: Mode, n: nat, f: XVal, g: XVal, a: Option<XVal>, b: Option<XVal>)
    requires Covers(rt, m) && Same(rt, m, f, g) && SameArgument(rt, m, a, b)
    ensures SameAnswer(rt, m, Ask(rt, n, f, a), Ask(rt, n, g, b))
    decreases n, 0, 1
  {
    ApplySame(rt, m, n, f, g, a, b);
    var x, y := Apply(rt, n, f, a), Apply(rt, n, g, b);
    if x.IsOk() {
      EmbedSame(rt, m, x.result.value, y.result.value);
    }
  }

  /** Code an operator may create in its captured scope. */
  ghost predicate Creatable(rt: Runtime, m: Mode, v: Value, s: Scope, t: Scope) {
    Fits(rt, m, v) && SameEnv(rt, m, Free(rt, m, v), s, t)
  }

  ghost predicate AllCreatable(rt: Runtime, m: Mode, vs: seq<Value>, s: Scope, t: Scope) {
    forall i :: 0 <= i < |vs| ==> Creatable(rt, m, vs[i], s, t)
  }

  lemma {:induction false} CreateSame(rt: Runtime, m: Mode, n: nat, v: Value, s: Scope, t: Scope)
    requires Covers(rt, m) && Creatable(rt, m, v, s, t)
    ensures SameOutcome(rt, m, Create(rt, n, v, s), Create(rt, n, v, t))
    decreases n, 0, 1
  {
    EvalSame(rt, m, n, v, s, t);
  }

  /** The two scopes agree on every name a payload may mention. */
  ghost predicate PayloadsCreatable(rt: Runtime, m: Mode, s: Scope, t: Scope) {
    m.reentry.Within? && SameEnv(rt, m, m.reentry.names, s, t)
  }

  lemma DataCreatable(rt: Runtime, m: Mode, d: Value, s: Scope, t: Scope)
    requires PayloadsCreatable(rt, m, s, t) && FitsData(rt, m, d)
    ensures Creatable(rt, m, d, s, t)
  {
    EnvSubset(rt, m, Free(rt, m, d), m.reentry.names, s, t);
  }

  lemma {:induction false} FixedCreatable(rt: Runtime, m: Mode, fixed: Option<Value>, s: Scope, t: Scope, index: nat)
    requires fixed.Some? ==> Fits(rt, m, fixed.value) && SameEnv(rt, m, Free(rt, m, fixed.value), s, t)
    ensures AllCreatable(rt, m, FixedElements(fixed), s, t)
    ensures Creatable(rt, m, FixedAt(fixed, index), s, t)
  {
    EnvEmpty(rt, m, s, t);
    forall i | 0 <= i < |FixedElements(fixed)|
      ensures Creatable(rt, m, FixedElements(fixed)[i], s, t)
    {
      assert FixedElements(fixed)[i] == fixed.value.elements[i];
      EnvSubset(rt, m, Free(rt, m, fixed.value.elements[i]), Free(rt, m, fixed.value), s, t);
    }
  }

  lemma {:induction false} OperatorCreatable(rt: Runtime, m: Mode, op: Op, fixed: Option<Value>, s: Scope, t: Scope)
    requires FitsOperator(m, op) && (fixed.Some? ==> Fits(rt, m, fixed.value))
    requires SameEnv(rt, m, FreeOperator(rt, m, op, fixed), s, t)
    ensures fixed.Some? ==> Creatable(rt, m, fixed.value, s, t)
    ensures fixed.Some? ==> SameEnv(rt, m, Free(rt, m, fixed.value), s, t)
    ensures EvaluatesPayloads(op) ==> PayloadsCreatable(rt, m, s, t)
  {
    if fixed.Some? {
      EnvSubset(rt, m, Free(rt, m, fixed.value), FreeOperator(rt, m, op, fixed), s, t);
    }
    if EvaluatesPayloads(op) {
      EnvSubset(rt, m, m.reentry.names, FreeOperator(rt, m, op, fixed), s, t);
    }
  }

  lemma {:induction false} ExecSame(
      rt: Runtime, m: Mode, n: nat, op: Op, fixed: Option<Value>, a: Option<XVal>, b: Option<XVal>, s: Scope, t: Scope)
    requires Covers(rt, m) && SameArgument(rt, m, a, b)
    requires FitsOperator(m, op) && (fixed.Some? ==> Fits(rt, m, fixed.value))
    requires SameEnv(rt, m, FreeOperator(rt, m, op, fixed), s, t)
    ensures SameOutcome(rt, m, Exec(rt, n, op, fixed, a, s), Exec(rt, n, op, fixed, b, t))
    decreases n, 4, 0
  {
    var fns := FixedElements(fixed);
    OperatorCreatable(rt, m, op, fixed, s, t);
    hide Same, SameEnv, Covers, Creatable, FreeOperator;
    FixedCreatable(rt, m, fixed, s, t, 0);
    FixedCreatable(rt, m, fixed, s, t, 1);
    match op
    case SerialChain => if a.Some? { SerialSame(rt, m, n, fns, a.value, b.value, s, t); }
    case BreakableChain => if a.Some? { BreakableSame(rt, m, n, fns, a.value, b.value, s, t); }
    case Fallback => FallbackSame(rt, m, n, fns, a, b, Unavailable, s, t);
    case Conditional =>
      if a.Some? { ExecConditionalSame(rt, m, n, fixed, a.value, b.value, s, t); }
    case ParallelMap =>
      if a.Some? && fixed.Some? { ExecMapSame(rt, m, n, fixed.value, a.value, b.value, s, t); }
    case Repeat =>
      CreateSame(rt, m, n, FixedAt(fixed, 1), s, t);
      var f, g := Create(rt, n, FixedAt(fixed, 1), s), Create(rt, n, FixedAt(fixed, 1), t);
      if f.IsOk() && a.Some? {
        RepeatSame(rt, m, n, f.result.value, g.result.value, Int32Of(FixedAt(fixed, 0)), a.value, b.value);
      }
    case While => ExecWhileSame(rt, m, n, fixed, a, b, s, t);
    case RepeatedConditionalChain => ExecRoundsSame(rt, m, n, fixed, a, b, s, t);
  }

  lemma {:induction false} ExecConditionalSame(
      rt: Runtime, m: Mode, n: nat, fixed: Option<Value>, a: XVal, b: XVal, s: Scope, t: Scope)
    requires Covers(rt, m) && Same(rt, m, a, b)
    requires Creatable(rt, m, FixedAt(fixed, 0), s, t) && Creatable(rt, m, FixedAt(fixed, 1), s, t)
    ensures SameOutcome(rt, m, ExecConditional(rt, n, fixed, a, s), ExecConditional(rt, n, fixed, b, t))
    decreases n, 2, 0
  {
    EmbedSame(rt, m, a, b);
    CreateSame(rt, m, n, FixedAt(fixed, 0), s, t);
    CreateSame(rt, m, n, FixedAt(fixed, 1), s, t);
  }

  lemma {:induction false} ExecWhileSame(
      rt: Runtime, m: Mode, n: nat, fixed: Option<Value>, a: Option<XVal>, b: Option<XVal>, s: Scope, t: Scope)
    requires Covers(rt, m) && SameArgument(rt, m, a, b)
    requires Creatable(rt, m, FixedAt(fixed, 0), s, t) && Creatable(rt, m, FixedAt(fixed, 1), s, t)
    ensures SameOutcome(rt, m, Exec(rt, n, While, fixed, a, s), Exec(rt, n, While, fixed, b, t))
    decreases n, 2, 0
  {
    CreateSame(rt, m, n, FixedAt(fixed, 0), s, t);
    CreateSame(rt, m, n, FixedAt(fixed, 1), s, t);
    var c, d := Create(rt, n, FixedAt(fixed, 0), s), Create(rt, n, FixedAt(fixed, 0), t);
    var f, g := Create(rt, n, FixedAt(fixed, 1), s), Create(rt, n, FixedAt(fixed, 1), t);
    if c.IsOk() && f.IsOk() && a.Some? {
      WhileSame(rt, m, n, c.result.value, d.result.value, f.result.value, g.result.value, a.value, b.value);
    }
  }

  lemma ElementsFit(rt: Runtime, m: Mode, d: Value)
    requires FitsData(rt, m, d)
    ensures forall i :: 0 <= i < |ElementsOf(d)| ==> FitsData(rt, m, ElementsOf(d)[i])
  {
    forall i | 0 <= i < |ElementsOf(d)|
      ensures FitsData(rt, m, ElementsOf(d)[i])
    {
      ElementFits(rt, m, d, i);
    }
  }

  lemma {:induction false} ExecMapSame(rt: Runtime, m: Mode, n: nat, fn: Value, a: XVal, b: XVal, s: Scope, t: Scope)
    requires Covers(rt, m) && PayloadsCreatable(rt, m, s, t) && Same(rt, m, a, b) && Creatable(rt, m, fn, s, t)
    ensures SameOutcome(rt, m, ExecMap(rt, n, fn, a, s), ExecMap(rt, n, fn, b, t))
    decreases n, 2, 0
  {
    hide Same, SameAll, Creatable, Covers;
    EmbedSame(rt, m, a, b);
    CreateSame(rt, m, n, fn, s, t);
    var f, g := Create(rt, n, fn, s), Create(rt, n, fn, t);
    if Materialize(a).Ok? && f.IsOk() {
      var d := Materialize(a).value;
      ElementsFit(rt, m, d);
      MapSame(rt, m, n, f.result.value, g.result.value, ElementsOf(d), s, t);
      var ys, zs := MapFrom(rt, n, f.result.value, ElementsOf(d), s), MapFrom(rt, n, g.result.value, ElementsOf(d), t);
      if ys.IsOk() {
        StructureSame(rt, m, ys.result.value, zs.result.value);
      }
    }
  }

  lemma {:induction false} ExecRoundsSame(
      rt: Runtime, m: Mode, n: nat, fixed: Option<Value>, a: Option<XVal>, b: Option<XVal>, s: Scope, t: Scope)
    requires Covers(rt, m) && PayloadsCreatable(rt, m, s, t) && SameArgument(rt, m, a, b)
    requires AllCreatable(rt, m, FixedElements(fixed), s, t)
    ensures SameOutcome(rt, m, Exec(rt, n, RepeatedConditionalChain, fixed, a, s),
                        Exec(rt, n, RepeatedConditionalChain, fixed, b, t))
    decreases n, 3, 0
  {
    var params := FixedElements(fixed);
    var bodies := if params == [] then [] else params[1..];
    CreateAllSame(rt, m, n, bodies, s, t);
    var fs, gs := CreateAll(rt, n, bodies, s), CreateAll(rt, n, bodies, t);
    if fs.IsOk() && a.Some? {
      RoundsSame(rt, m, n, Int32Of(FixedAt(fixed, 0)), fs.result.value, gs.result.value, a.value, b.value, s, t);
    }
  }

  lemma {:induction false} CreateAllSame(rt: Runtime, m: Mode, n: nat, vs: seq<Value>, s: Scope, t: Scope)
    requires Covers(rt, m) && AllCreatable(rt, m, vs, s, t)
    ensures SameOutcomes(rt, m, CreateAll(rt, n, vs, s), CreateAll(rt, n, vs, t))
    decreases n, 1, |vs|
  {
    hide SameAll, Same, Covers, Ask, Create;
    SameAllEmpty(rt, m);
    if vs != [] {
      CreateSame(rt, m, n, vs[0], s, t);
      CreateAllSame(rt, m, n, vs[1..], s, t);
      var x, xs := Create(rt, n, vs[0], s), CreateAll(rt, n, vs[1..], s);
      var y, ys := Create(rt, n, vs[0], t), CreateAll(rt, n, vs[1..], t);
      if x.IsOk() && xs.IsOk() {
        SameAllCons(rt, m, x.result.value, y.result.value, xs.result.value, ys.result.value);
      }
    }
  }

  lemma {:induction false} SerialSame(
      rt: Runtime, m: Mode, n: nat, fns: seq<Value>, x: XVal, y: XVal, s: Scope, t: Scope)
    requires Covers(rt, m) && AllCreatable(rt, m, fns, s, t) && Same(rt, m, x, y)
    ensures SameOutcome(rt, m, SerialFrom(rt, n, fns, x, s), SerialFrom(rt, n, fns, y, t))
    decreases n, 1, |fns|
  {
    hide Same, Covers, Ask, Create;
    if fns != [] {
      CreateSame(rt, m, n, fns[0], s, t);
      var f, g := Create(rt, n, fns[0], s), Create(rt, n, fns[0], t);
      if f.IsOk() {
        ApplySame(rt, m, n, f.result.value, g.result.value, Some(x), Some(y));
        var x', y' := Apply(rt, n, f.result.value, Some(x)), Apply(rt, n, g.result.value, Some(y));
        if x'.IsOk() {
          SerialSame(rt, m, n, fns[1..], x'.result.value, y'.result.value, s, t);
        }
      }
    }
  }

  lemma {:induction false} BreakableSame(
      rt: Runtime, m: Mode, n: nat, fns: seq<Value>, x: XVal, y: XVal, s: Scope, t: Scope)
    requires Covers(rt, m) && AllCreatable(rt, m, fns, s, t) && Same(rt, m, x, y)
    ensures SameOutcome(rt, m, BreakableFrom(rt, n, fns, x, s), BreakableFrom(rt, n, fns, y, t))
    decreases n, 1, |fns|
  {
    hide Same, Covers, Ask, Create;
    if fns != [] {
      CreateSame(rt, m, n, fns[0], s, t);
      var f, g := Create(rt, n, fns[0], s), Create(rt, n, fns[0], t);
      if f.IsOk() {
        AskSame(rt, m, n, f.result.value, g.result.value, Some(x), Some(y));
        var p, q := Ask(rt, n, f.result.value, Some(x)), Ask(rt, n, g.result.value, Some(y));
        if p.IsOk() {
          if IsBoolean(p.result.value.1) {
            BreakableSame(rt, m, n, fns[1..], x, y, s, t);
          } else {
            BreakableSame(rt, m, n, fns[1..], p.result.value.0, q.result.value.0, s, t);
          }
        }
      }
    }
  }

  lemma {:induction false} CandidateSame(
      rt: Runtime, m: Mode, n: nat, v: Value, a: Option<XVal>, b: Option<XVal>, s: Scope, t: Scope)
    requires Covers(rt, m) && Creatable(rt, m, v, s, t) && SameArgument(rt, m, a, b)
    ensures SameOutcome(rt, m, Candidate(rt, n, v, a, s), Candidate(rt, n, v, b, t))
    decreases n, 1, 0
  {
    hide Same, Covers, Ask, Create;
    CreateSame(rt, m, n, v, s, t);
    var f, g := Create(rt, n, v, s), Create(rt, n, v, t);
    if f.IsOk() {
      AskSame(rt, m, n, f.result.value, g.result.value, a, b);
    }
  }

  lemma {:induction false} FallbackSame(
      rt: Runtime, m: Mode, n: nat, fns: seq<Value>, a: Option<XVal>, b: Option<XVal>, error: Code, s: Scope, t: Scope)
    requires Covers(rt, m) && AllCreatable(rt, m, fns, s, t) && SameArgument(rt, m, a, b)
    ensures SameOutcome(rt, m, FallbackFrom(rt, n, fns, a, error, s), FallbackFrom(rt, n, fns, b, error, t))
    decreases n, 2, |fns|
  {
    hide Same, Covers, Ask, Create;
    if fns != [] {
      CandidateSame(rt, m, n, fns[0], a, b, s, t);
      var y := Candidate(rt, n, fns[0], a, s);
      if y.Done? && y.result.Err? {
        FallbackSame(rt, m, n, fns[1..], a, b, y.result.code, s, t);
      }
    }
  }

  lemma {:induction false} MapSame(
      rt: Runtime, m: Mode, n: nat, f: XVal, g: XVal, ds: seq<Value>, s: Scope, t: Scope)
    requires Covers(rt, m) && PayloadsCreatable(rt, m, s, t) && Same(rt, m, f, g)
    requires forall i :: 0 <= i < |ds| ==> FitsData(rt, m, ds[i])
    ensures SameOutcomes(rt, m, MapFrom(rt, n, f, ds, s), MapFrom(rt, n, g, ds, t))
    decreases n, 1, |ds|
  {
    hide SameAll, Same, Covers, Ask, Create, FitsData, Creatable;
    SameAllEmpty(rt, m);
    if ds != [] {
      DataCreatable(rt, m, ds[0], s, t);
      CreateSame(rt, m, n, ds[0], s, t);
      var x, y := Create(rt, n, ds[0], s), Create(rt, n, ds[0], t);
      if x.IsOk() {
        ApplySame(rt, m, n, f, g, Some(x.result.value), Some(y.result.value));
        var p, q := Apply(rt, n, f, Some(x.result.value)), Apply(rt, n, g, Some(y.result.value));
        if p.IsOk() {
          MapSame(rt, m, n, f, g, ds[1..], s, t);
          var ps, qs := MapFrom(rt, n, f, ds[1..], s), MapFrom(rt, n, g, ds[1..], t);
          if ps.IsOk() {
            SameAllCons(rt, m, p.result.value, q.result.value, ps.result.value, qs.result.value);
          }
        }
      }
    }
  }

  lemma {:induction false} RepeatSame(
      rt: Runtime, m: Mode, n: nat, f: XVal, g: XVal, k: int, x: XVal, y: XVal)
    requires Covers(rt, m) && Same(rt, m, f, g) && Same(rt, m, x, y)
    ensures SameOutcome(rt, m, RepeatFrom(rt, n, f, k, x), RepeatFrom(rt, n, g, k, y))
    decreases n, 1, if k < 0 then 0 else k
  {
    hide Same, Covers, Ask, Create;
    if k > 0 {
      ApplySame(rt, m, n, f, g, Some(x), Some(y));
      var x', y' := Apply(rt, n, f, Some(x)), Apply(rt, n, g, Some(y));
      if x'.IsOk() {
        RepeatSame(rt, m, n, f, g, k - 1, x'.result.value, y'.result.value);
      }
    }
  }

  lemma {:induction false} WhileSame(
      rt: Runtime, m: Mode, n: nat, c: XVal, d: XVal, f: XVal, g: XVal, x: XVal, y: XVal)
    requires Covers(rt, m) && Same(rt, m, c, d) && Same(rt, m, f, g) && Same(rt, m, x, y)
    ensures SameOutcome(rt, m, WhileFrom(rt, n, c, f, x), WhileFrom(rt, n, d, g, y))
    decreases n, 1, 0
  {
    hide Same, Covers, Ask, Create;
    if n == 0 { return; }
    AskSame(rt, m, n - 1, c, d, Some(x), Some(y));
    var p := Ask(rt, n - 1, c, Some(x));
    if p.IsOk() && BooleanOf(p.result.value.1) {
      ApplySame(rt, m, n - 1, f, g, Some(x), Some(y));
      var x', y' := Apply(rt, n - 1, f, Some(x)), Apply(rt, n - 1, g, Some(y));
      if x'.IsOk() {
        WhileSame(rt, m, n - 1, c, d, f, g, x'.result.value, y'.result.value);
      }
    }
  }

  /** `Round` outcomes agree on the break flag as well. */
  ghost predicate SameRound(rt: Runtime, m: Mode, o: Outcome<(XVal, bool)>, p: Outcome<(XVal, bool)>) {
    if o.IsOk() then
      p.IsOk() && o.result.value.1 == p.result.value.1 && Same(rt, m, o.result.value.0, p.result.value.0)
    else o == p
  }

  lemma {:induction false} RoundSame(
      rt: Runtime, m: Mode, n: nat, fs: seq<XVal>, gs: seq<XVal>, x: XVal, y: XVal, s: Scope, t: Scope)
    requires Covers(rt, m) && PayloadsCreatable(rt, m, s, t) && SameAll(rt, m, fs, gs) && Same(rt, m, x, y)
    ensures SameRound(rt, m, Round(rt, n, fs, x, s), Round(rt, n, gs, y, t))
    decreases n, 1, |fs|
  {
    hide Same, Covers, Ask, Create;
    if fs != [] {
      AskSame(rt, m, n, fs[0], gs[0], Some(x), Some(y));
      var p := Ask(rt, n, fs[0], Some(x));
      if p.IsOk() {
        var d := p.result.value.1;
        if IsBoolean(d) {
          RoundSame(rt, m, n, fs[1..], gs[1..], x, y, s, t);
        } else {
          DataCreatable(rt, m, d, s, t);
          CreateSame(rt, m, n, d, s, t);
          var x', y' := Create(rt, n, d, s), Create(rt, n, d, t);
          if x'.IsOk() {
            RoundSame(rt, m, n, fs[1..], gs[1..], x'.result.value, y'.result.value, s, t);
          }
        }
      }
    }
  }

  lemma {:induction false} RoundsSame(
      rt: Runtime, m: Mode, n: nat, k: int, fs: seq<XVal>, gs: seq<XVal>, x: XVal, y: XVal, s: Scope, t: Scope)
    requires Covers(rt, m) && PayloadsCreatable(rt, m, s, t) && SameAll(rt, m, fs, gs) && Same(rt, m, x, y)
    ensures SameOutcome(rt, m, RoundsFrom(rt, n, k, fs, x, s), RoundsFrom(rt, n, k, gs, y, t))
    decreases n, 2, if k < 0 then 0 else k
  {
    hide Same, Covers, Ask, Create;
    if k > 0 {
      RoundSame(rt, m, n, fs, gs, x, y, s, t);
      var p, q := Round(rt, n, fs, x, s), Round(rt, n, gs, y, t);
      if p.IsOk() && !p.result.value.1 {
        RoundsSame(rt, m, n, k - 1, fs, gs, p.result.value.0, q.result.value.0, s, t);
      }
    }
  }

  // ----- consequences -----

  /** A closed computation means the same in every scope. */
  lemma ClosedSame(rt: Runtime, m: Mode, v: Value, s: Scope, t: Scope)
    requires Covers(rt, m) && Fits(rt, m, v) && Closed(rt, m, v)
    ensures forall n: nat :: SameOutcome(rt, m, Eval(rt, n, v, s), Eval(rt, n, v, t))
  {
    forall n: nat
      ensures SameOutcome(rt, m, Eval(rt, n, v, s), Eval(rt, n, v, t))
    {
      EnvEmpty(rt, m, s, t);
      EvalSame(rt, m, n, v, s, t);
    }
  }

  /** The mode that counts a parameter as free in its own lambda, and every name as free in
      a handler that evaluates payloads. It asks nothing of code, data or runtime. */
  ghost const ANY := Mode(true, Within(iset s: string | true))

  lemma {:induction false} AnythingFits(rt: Runtime, v: Value)
    ensures Fits(rt, ANY, v)
  {
    match v
    case NotSet(_) =>
    case Leaf(_, _) =>
    case Ref(_, _) =>
    case Struct(elements, _) => forall i | 0 <= i < |elements| { AnythingFits(rt, elements[i]); }
    case Select(source, _, _) => AnythingFits(rt, source);
    case Lambda(_, body, _) => AnythingFits(rt, body);
    case Call(f, a, _) =>
      AnythingFits(rt, f);
      if a.Some? { AnythingFits(rt, a.value); }
    case Block(locals, result, _) =>
      AnythingFits(rt, result);
      forall i | 0 <= i < |locals| { AnythingFits(rt, locals[i].value); }
    case Intrinsic(_, fixed, _) => if fixed.Some? { AnythingFits(rt, fixed.value); }
  }

  lemma {:induction false} AnyValueFits(rt: Runtime, c: CVal)
    ensures FitsCanon(rt, ANY, c)
  {
    match c
    case CData(future) => if future.Ok? { AnythingFits(rt, future.value); }
    case CStructure(elements) => forall i | 0 <= i < |elements| { AnyValueFits(rt, elements[i]); }
    case CClosure(param, body, env) =>
      AnythingFits(rt, Lambda(param, body, NO_META));
      forall x | x in env { AnyValueFits(rt, env[x]); }
    case COperator(_, fixed, env) =>
      if fixed.Some? { AnythingFits(rt, fixed.value); }
      forall x | x in env { AnyValueFits(rt, env[x]); }
  }

  /** All code, all values, all runtimes: two scopes that resolve the free references alike
      give the same outcome. */
  lemma {:induction false} AnyCodeSame(rt: Runtime, n: nat, v: Value, s: Scope, t: Scope)
    requires CanonEnv(rt, ANY, Free(rt, ANY, v), s) == CanonEnv(rt, ANY, Free(rt, ANY, v), t)
    ensures SameOutcome(rt, ANY, Eval(rt, n, v, s), Eval(rt, n, v, t))
  {
    AnythingFits(rt, v);
    AnyCovers(rt);
    var env := CanonEnv(rt, ANY, Free(rt, ANY, v), s);
    forall x | x in env { AnyValueFits(rt, env[x]); }
    EvalSame(rt, ANY, n, v, s, t);
  }

  lemma AnyCovers(rt: Runtime)
    ensures Covers(rt, ANY)
  {
    forall v: Value
      ensures FitsData(rt, ANY, v)
    {
      AnythingFits(rt, v);
    }
  }

  /** `v` contains neither of the handlers that evaluate payloads. */
  predicate EvaluatesNoPayloads(rt: Runtime, v: Value) {
    match v
    case NotSet(_) => true
    case Leaf(_, _) => true
    case Ref(_, _) => true
    case Struct(elements, _) => forall i :: 0 <= i < |elements| ==> EvaluatesNoPayloads(rt, elements[i])
    case Select(source, _, _) => EvaluatesNoPayloads(rt, source)
    case Lambda(_, body, _) => EvaluatesNoPayloads(rt, body)
    case Call(f, a, _) => EvaluatesNoPayloads(rt, f) && (a.Some? ==> EvaluatesNoPayloads(rt, a.value))
    case Block(locals, result, _) =>
      EvaluatesNoPayloads(rt, result) && forall i :: 0 <= i < |locals| ==> EvaluatesNoPayloads(rt, locals[i].value)
    case Intrinsic(uri, fixed, _) =>
      rt.kind(uri).ControlFlow? ==> !EvaluatesPayloads(rt.kind(uri).op) && (fixed.Some? ==> EvaluatesNoPayloads(rt, fixed.value))
  }

  /** Counts a parameter as free in its own lambda, and allows neither of the two handlers. */
  const ORDINARY := Mode(true, Never)

  lemma {:induction false} OrdinaryFits(rt: Runtime, v: Value)
    ensures Fits(rt, ORDINARY, v) <==> EvaluatesNoPayloads(rt, v)
  {
    match v
    case NotSet(_) =>
    case Leaf(_, _) =>
    case Ref(_, _) =>
    case Struct(elements, _) => forall i | 0 <= i < |elements| { OrdinaryFits(rt, elements[i]); }
    case Select(source, _, _) => OrdinaryFits(rt, source);
    case Lambda(_, body, _) => OrdinaryFits(rt, body);
    case Call(f, a, _) =>
      OrdinaryFits(rt, f);
      if a.Some? { OrdinaryFits(rt, a.value); }
    case Block(locals, result, _) =>
      OrdinaryFits(rt, result);
      forall i | 0 <= i < |locals| { OrdinaryFits(rt, locals[i].value); }
    case Intrinsic(_, fixed, _) => if fixed.Some? { OrdinaryFits(rt, fixed.value); }
  }

  /** Code without the two handlers, in a runtime that may well have them: only the
      references written in it matter. */
  lemma {:induction false} OrdinaryCodeSame(rt: Runtime, n: nat, v: Value, s: Scope, t: Scope)
    requires EvaluatesNoPayloads(rt, v) && SameEnv(rt, ORDINARY, Free(rt, ORDINARY, v), s, t)
    ensures SameOutcome(rt, ORDINARY, Eval(rt, n, v, s), Eval(rt, n, v, t))
  {
    OrdinaryFits(rt, v);
    EvalSame(rt, ORDINARY, n, v, s, t);
  }

  // ----- why the modes are needed -----

  function Number(i: int32): Value { Leaf(Int32(i), NO_META) }

  /** A call without an argument of a closed lambda reads its parameter's name from the
      surrounding scope. */
  lemma ZeroArgumentCallLeaks(rt: Runtime)
    ensures var v := Call(Lambda("x", Ref("x", NO_META), NO_META), None, NO_META);
            && Closed(rt, Mode(false, Never), v)
            && Evaluates(rt, v, Bind("x", Embedded(Ok(Number(1))), Root), Ok(Embedded(Ok(Number(1)))))
            && Evaluates(rt, v, Root, Err(NotFound))
  {
    var f := Lambda("x", Ref("x", NO_META), NO_META);
    var v := Call(f, None, NO_META);
    assert Free(rt, Mode(false, Never), f) == iset{};
    forall s: Scope
      ensures Eval(rt, 4, v, s) == Done(Resolve(s, "x"))
    {
      assert Eval(rt, 3, f, s) == Done(Ok(Closure("x", Ref("x", NO_META), s)));
      assert EvalArgument(rt, 3, None, s) == Done(Ok(None));
      assert Apply(rt, 3, Closure("x", Ref("x", NO_META), s), None) == Eval(rt, 2, Ref("x", NO_META), s);
    }
    var one := Bind("x", Embedded(Ok(Number(1))), Root);
    assert Eval(rt, 4, v, one) == Done(Ok(Embedded(Ok(Number(1)))));
    assert Eval(rt, 4, v, Root) == Done(Err(NotFound));
  }

  /** A runtime with an identity handler and the repeated chain. */
  const REENTRANT := Runtime(
    uri => if uri == "chain" then ControlFlow(RepeatedConditionalChain) else if uri == "id" then Inline else Unregistered,
    (uri, fixed) => None,
    (uri, fixed, d) => Ok(d))

  const ID := Intrinsic("id", None, NO_META)
  const READS_Z := Lambda("y", Ref("z", NO_META), NO_META)
  const MADE_WHERE_Z_IS_1 := Block([Local("z", Number(1))], READS_Z, NO_META)
  const CHAIN_PARAMETERS := Struct([Number(1), ID], NO_META)
  const RECAPTURE := Call(Intrinsic("chain", Some(CHAIN_PARAMETERS), NO_META), Some(MADE_WHERE_Z_IS_1), NO_META)

  lemma RecaptureIsClosed()
    ensures Closed(REENTRANT, Mode(false, Never), RECAPTURE)
  {
    var rt, m := REENTRANT, Mode(false, Never);
    assert FreeLocals(rt, m, [], Free(rt, m, READS_Z)) == iset{"z"};
    assert Free(rt, m, MADE_WHERE_Z_IS_1) == iset{};
    assert CHAIN_PARAMETERS.elements[0] == Number(1) && CHAIN_PARAMETERS.elements[1] == ID;
    assert Free(rt, m, CHAIN_PARAMETERS) == iset{};
  }

  lemma {:induction false} RecaptureArgument(s: Scope)
    ensures Eval(REENTRANT, 9, MADE_WHERE_Z_IS_1, s)
         == Done(Ok(Closure("y", Ref("z", NO_META), Bind("z", Embedded(Ok(Number(1))), s))))
  {
    var inner := Bind("z", Embedded(Ok(Number(1))), s);
    var locals := MADE_WHERE_Z_IS_1.locals;
    assert locals[1..] == [];
    assert EvalBlock(REENTRANT, 8, locals[1..], READS_Z, inner) == Eval(REENTRANT, 8, READS_Z, inner);
    assert EvalBlock(REENTRANT, 8, locals, READS_Z, s) == EvalBlock(REENTRANT, 8, locals[1..], READS_Z, inner);
  }

  lemma {:induction false} RecaptureRound(inner: Scope, s: Scope)
    ensures Round(REENTRANT, 8, [Embedded(Ok(ID))], Closure("y", Ref("z", NO_META), inner), s)
         == Done(Ok((Closure("y", Ref("z", NO_META), s), false)))
  {
    var rt, f, x := REENTRANT, Embedded(Ok(ID)), Closure("y", Ref("z", NO_META), inner);
    assert Apply(rt, 8, f, Some(x)) == Done(Ok(Embedded(Ok(READS_Z))));
    assert Ask(rt, 8, f, Some(x)) == Done(Ok((Embedded(Ok(READS_Z)), READS_Z)));
    assert [f][1..] == [];
  }

  lemma {:induction false} RecaptureExec(inner: Scope, s: Scope)
    ensures Exec(REENTRANT, 8, RepeatedConditionalChain, Some(CHAIN_PARAMETERS), Some(Closure("y", Ref("z", NO_META), inner)), s)
         == Done(Ok(Closure("y", Ref("z", NO_META), s)))
  {
    var rt, x := REENTRANT, Closure("y", Ref("z", NO_META), inner);
    var params := FixedElements(Some(CHAIN_PARAMETERS));
    assert params[1..] == [ID] && [ID][1..] == [];
    assert rt.kind("id") == Inline;
    assert Create(rt, 8, ID, s) == Done(Ok(Embedded(Ok(ID))));
    var none: seq<Value> := [ID][1..];
    assert CreateAll(rt, 8, none, s) == Done(Ok([]));
    assert [Embedded(Ok(ID))] + [] == [Embedded(Ok(ID))];
    assert CreateAll(rt, 8, [ID], s) == Done(Ok([Embedded(Ok(ID))]));
    RecaptureRound(inner, s);
  }

  /** `RepeatedConditionalChain` materialises a lambda and creates it again in its own scope,
      so a closed program can see the scope it is evaluated in. Here the lambda was made
      where `z` is 1, and afterwards resolves `z` in the scope of the whole program. */
  lemma ReentryChangesScope(s: Scope)
    ensures Closed(REENTRANT, Mode(false, Never), RECAPTURE)
    ensures Evaluates(REENTRANT, RECAPTURE, s, Ok(Closure("y", Ref("z", NO_META), s)))
  {
    RecaptureIsClosed();
    RecaptureArgument(s);
    RecaptureExec(Bind("z", Embedded(Ok(Number(1))), s), s);
    var chain := Operator(RepeatedConditionalChain, Some(CHAIN_PARAMETERS), s);
    assert Eval(REENTRANT, 9, RECAPTURE.fn, s) == Done(Ok(chain));
    assert Eval(REENTRANT, 10, RECAPTURE, s) == Done(Ok(Closure("y", Ref("z", NO_META), s)));
  }
}
