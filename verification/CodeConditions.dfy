/** The conditions of the theorems about scopes and forms can be checked on code and values. */
module CodeConditions {
  import opened Common
  import opened Ir
  import opened Evaluator
  import opened Relevance
  import opened ScopeRelevance
  import opened StructUse
  import opened Representation
  import opened RoundTrip

  // ----- ordinary values -----

  /** No code in the value contains a handler that evaluates payloads. */
  predicate OrdinaryValue(rt: Runtime, x: XVal) {
    match x
    case Embedded(_) => true
    case Structure(xs) => forall i :: 0 <= i < |xs| ==> OrdinaryValue(rt, xs[i])
    case Closure(_, body, s) => EvaluatesNoPayloads(rt, body) && OrdinaryScope(rt, s)
    case Operator(op, fixed, s) =>
      && op !in {ParallelMap, RepeatedConditionalChain}
      && (fixed.Some? ==> EvaluatesNoPayloads(rt, fixed.value))
      && OrdinaryScope(rt, s)
  }

  predicate OrdinaryScope(rt: Runtime, s: Scope) {
    s.Bind? ==> OrdinaryValue(rt, s.value) && OrdinaryScope(rt, s.parent)
  }

  /** Ordinary values mean the same as themselves, whatever payloads they hold. */
  lemma {:induction false} OrdinarySame(rt: Runtime, x: XVal)
    requires OrdinaryValue(rt, x)
    ensures Same(rt, ORDINARY, x, x)
    decreases x
  {
    match x
    case Embedded(_) =>
    case Structure(xs) => forall i | 0 <= i < |xs| { OrdinarySame(rt, xs[i]); }
    case Closure(param, body, s) =>
      OrdinaryFits(rt, Lambda(param, body, NO_META));
      OrdinaryEnv(rt, Free(rt, ORDINARY, Lambda(param, body, NO_META)), s);
    case Operator(op, fixed, s) =>
      if fixed.Some? { OrdinaryFits(rt, fixed.value); }
      OrdinaryEnv(rt, FreeOperator(rt, ORDINARY, op, fixed), s);
  }

  lemma {:induction false} OrdinaryEnv(rt: Runtime, names: iset<string>, s: Scope)
    requires OrdinaryScope(rt, s)
    ensures SameEnv(rt, ORDINARY, names, s, s)
    decreases s
  {
    if s.Bind? {
      OrdinarySame(rt, s.value);
      OrdinaryEnv(rt, if s.name in names then names - iset{s.name} else names, s.parent);
    }
  }

  /** Ordinary code in two scopes: if both bind each of its free names to the same ordinary
      value, or neither binds it, the outcome is the same. */
  lemma {:induction false} OrdinaryScopesSame(rt: Runtime, n: nat, v: Value, s: Scope, t: Scope)
    requires EvaluatesNoPayloads(rt, v) && OrdinaryScope(rt, s)
    requires forall x :: x in Free(rt, ORDINARY, v) ==> Resolve(s, x) == Resolve(t, x)
    ensures SameOutcome(rt, ORDINARY, Eval(rt, n, v, s), Eval(rt, n, v, t))
  {
    hide Eval, EvaluatesNoPayloads;
    var names := Free(rt, ORDINARY, v);
    OrdinaryEnv(rt, names, s);
    var e, f := CanonEnv(rt, ORDINARY, names, s), CanonEnv(rt, ORDINARY, names, t);
    forall x
      ensures x in e <==> x in f
      ensures x in e ==> e[x] == f[x]
    {
      EnvAt(rt, ORDINARY, names, s, x);
      EnvAt(rt, ORDINARY, names, t, x);
    }
    assert e == f;
    OrdinaryCodeSame(rt, n, v, s, t);
  }

  // ----- code for the two forms of a struct -----

  const ANY_CODE := Rules(false, true, true, true)

  /** The second condition under which the two forms agree asks nothing of code, values or
      handlers. */
  lemma {:induction false} AnyCodeOk(rt: Runtime, v: Value)
    ensures CodeOk(rt, ANY_CODE, v)
  {
    match v
    case NotSet(_) =>
    case Leaf(_, _) =>
    case Ref(_, _) =>
    case Struct(vs, _) => forall i | 0 <= i < |vs| { AnyCodeOk(rt, vs[i]); }
    case Select(source, _, _) => AnyCodeOk(rt, source);
    case Lambda(_, body, _) => AnyCodeOk(rt, body);
    case Call(f, a, _) =>
      AnyCodeOk(rt, f);
      if a.Some? { AnyCodeOk(rt, a.value); }
    case Block(locals, result, _) =>
      AnyCodeOk(rt, result);
      forall i | 0 <= i < |locals| { AnyCodeOk(rt, locals[i].value); }
    case Intrinsic(_, fixed, _) => if fixed.Some? { AnyCodeOk(rt, fixed.value); }
  }

  lemma {:induction false} AnySim(rt: Runtime, x: XVal)
    ensures Sim(rt, ANY_CODE, x, x)
    decreases x
  {
    match x
    case Embedded(future) => if future.Ok? { AnyCodeOk(rt, future.value); }
    case Structure(xs) => forall i | 0 <= i < |xs| { AnySim(rt, xs[i]); }
    case Closure(_, body, s) =>
      AnyCodeOk(rt, body);
      AnySimScope(rt, s);
    case Operator(_, fixed, s) =>
      if fixed.Some? { AnyCodeOk(rt, fixed.value); }
      AnySimScope(rt, s);
  }

  lemma {:induction false} AnySimScope(rt: Runtime, s: Scope)
    ensures SimScope(rt, ANY_CODE, s, s)
    decreases s
  {
    if s.Bind? {
      AnySim(rt, s.value);
      AnySimScope(rt, s.parent);
    }
  }

  lemma {:induction false} DataSim(rt: Runtime, d: Value)
    ensures Sim(rt, ANY_CODE, LocalForm(d), Embedded(Ok(Norm(d))))
    decreases d
  {
    AnyCodeOk(rt, d);
    if d.Struct? {
      forall i | 0 <= i < |d.elements| { DataSim(rt, d.elements[i]); }
    }
  }

  /** For all code, wherever it runs: data bound to a name may be held locally or by the child,
      as long as the run with the child's form selects within its structs and calls none. */
  lemma {:induction false} DataFormsAgree(rt: Runtime, n: nat, v: Value, name: string, d: Value, base: Scope)
    requires ProperEval(rt, true, n, v, Bind(name, Embedded(Ok(Norm(d))), base))
    ensures Observed(rt, n, v, Bind(name, LocalForm(d), base)) == Observed(rt, n, v, Bind(name, Embedded(Ok(Norm(d))), base))
  {
    hide ProperEval, Sim, CodeOk, LocalForm, Norm;
    var s, t := Bind(name, LocalForm(d), base), Bind(name, Embedded(Ok(Norm(d))), base);
    AnyCodeOk(rt, v);
    DataSim(rt, d);
    AnySimScope(rt, base);
    assert SimScope(rt, ANY_CODE, s, t);
    AnyKeeps(rt);
    FormsAgree(rt, ANY_CODE, n, v, s, t);
  }

  lemma AnyKeeps(rt: Runtime)
    ensures Keeps(rt, ANY_CODE)
  {
    forall d: Value
      ensures CodeOk(rt, ANY_CODE, d)
    {
      AnyCodeOk(rt, d);
    }
  }
}
