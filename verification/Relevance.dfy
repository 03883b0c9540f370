/** Scope relevance: an expression sees a scope only through its free references. */
module Relevance {
  import opened Common
  import opened Ir
  import opened Evaluator

  // Two executor values mean the same when their canonical forms are equal. The canonical
  // form of a closure or of a control-flow operator keeps, of the captured scope, only the
  // references that its code can resolve.
  //
  // Two features of the runtime limit this, so the results carry a `Mode`:
  // - `zeroArgument`: calls without an argument may occur. Such a call evaluates the body
  //   of a lambda in the captured scope itself (control_flow_executor.cc:291-293), where the
  //   parameter's own name may resolve to something else, so it counts as free.
  // - `reentry`: whether the code may contain `ParallelMap` or `RepeatedConditionalChain`.
  //   They evaluate payloads again, in the scope their own operator captured. With
  //   `Within(names)` the free names of lambdas and payloads lie in `names`, and these names
  //   count as free wherever one of the two handlers is created. With no names every lambda
  //   is closed; with all names nothing is asked of the code.

  datatype Reentry = Never | Within(names: iset<string>)

  datatype Mode = Mode(zeroArgument: bool, reentry: Reentry)

  datatype CVal =
    | CData(future: Result<Value>)
    | CStructure(elements: seq<CVal>)
    | CClosure(param: string, body: Value, env: map<string, CVal>)
    | COperator(op: Op, fixed: Option<Value>, env: map<string, CVal>)

  // ----- free references -----

  predicate EvaluatesPayloads(op: Op) {
    op.ParallelMap? || op.RepeatedConditionalChain?
  }

  ghost function Free(rt: Runtime, m: Mode, v: Value): iset<string> {
    match v
    case NotSet(_) => iset{}
    case Leaf(_, _) => iset{}
    case Struct(elements, _) => iset i, x | 0 <= i < |elements| && x in Free(rt, m, elements[i]) :: x
    case Select(source, _, _) => Free(rt, m, source)
    case Ref(name, _) => iset{name}
    case Lambda(param, body, _) => Free(rt, m, body) - (if m.zeroArgument then iset{} else iset{param})
    case Call(f, a, _) => Free(rt, m, f) + (if a.Some? then Free(rt, m, a.value) else iset{})
    case Block(locals, result, _) => FreeLocals(rt, m, locals, Free(rt, m, result))
    case Intrinsic(uri, fixed, _) =>
      if rt.kind(uri).ControlFlow? then
        (if fixed.Some? then Free(rt, m, fixed.value) else iset{}) + FreeIn(m, rt.kind(uri).op)
      else iset{}
  }

  ghost function FreeLocals(rt: Runtime, m: Mode, locals: seq<Local>, tail: iset<string>): iset<string> {
    if locals == [] then tail
    else Free(rt, m, locals[0].value) + (FreeLocals(rt, m, locals[1..], tail) - iset{locals[0].name})
  }

  /** The names a handler may look up because it evaluates payloads in its captured scope. */
  ghost function FreeIn(m: Mode, op: Op): iset<string> {
    if m.reentry.Within? && EvaluatesPayloads(op) then m.reentry.names else iset{}
  }

  /** The names an operator may look up in its captured scope. */
  ghost function FreeOperator(rt: Runtime, m: Mode, op: Op, fixed: Option<Value>): iset<string> {
    (if fixed.Some? then Free(rt, m, fixed.value) else iset{}) + FreeIn(m, op)
  }

  ghost predicate Closed(rt: Runtime, m: Mode, v: Value) {
    Free(rt, m, v) == iset{}
  }

  // ----- what the mode asks of code -----

  ghost predicate Fits(rt: Runtime, m: Mode, v: Value) {
    match v
    case NotSet(_) => true
    case Leaf(_, _) => true
    case Struct(elements, _) => forall i :: 0 <= i < |elements| ==> Fits(rt, m, elements[i])
    case Select(source, _, _) => Fits(rt, m, source)
    case Ref(_, _) => true
    case Lambda(_, body, _) => Fits(rt, m, body) && (m.reentry.Within? ==> Free(rt, m, v) <= m.reentry.names)
    case Call(f, a, _) => Fits(rt, m, f) && (if a.Some? then Fits(rt, m, a.value) else m.zeroArgument)
    case Block(locals, result, _) => Fits(rt, m, result) && forall i :: 0 <= i < |locals| ==> Fits(rt, m, locals[i].value)
    case Intrinsic(uri, fixed, _) =>
      rt.kind(uri).ControlFlow? ==> FitsOperator(m, rt.kind(uri).op) && (fixed.Some? ==> Fits(rt, m, fixed.value))
  }

  /** Only code that may evaluate payloads again contains the handlers that do. */
  predicate FitsOperator(m: Mode, op: Op) {
    m.reentry.Never? ==> !EvaluatesPayloads(op)
  }

  ghost predicate FitsData(rt: Runtime, m: Mode, v: Value) {
    m.reentry.Within? ==> Free(rt, m, v) <= m.reentry.names && Fits(rt, m, v)
  }

  /** Where payloads are evaluated again, every inline handler keeps their free names in
      bounds. */
  ghost predicate Covers(rt: Runtime, m: Mode) {
    m.reentry.Within? ==>
      forall uri, fixed, d :: FitsData(rt, m, d) && rt.inline(uri, fixed, d).Ok?
        ==> FitsData(rt, m, rt.inline(uri, fixed, d).value)
  }

  // ----- canonical forms -----

  ghost function Canon(rt: Runtime, m: Mode, x: XVal): CVal
    decreases x
  {
    match x
    case Embedded(future) => CData(future)
    case Structure(elements) => CStructure(seq(|elements|, i requires 0 <= i < |elements| => Canon(rt, m, elements[i])))
    case Closure(param, body, scope) =>
      CClosure(param, body, CanonEnv(rt, m, Free(rt, m, Lambda(param, body, NO_META)), scope))
    case Operator(op, fixed, scope) =>
      COperator(op, fixed, CanonEnv(rt, m, FreeOperator(rt, m, op, fixed), scope))
  }

  ghost function CanonEnv(rt: Runtime, m: Mode, names: iset<string>, s: Scope): map<string, CVal>
    decreases s
  {
    match s
    case Root => map[]
    case Bind(name, x, parent) =>
      if name in names then CanonEnv(rt, m, names - iset{name}, parent)[name := Canon(rt, m, x)]
      else CanonEnv(rt, m, names, parent)
  }

  ghost predicate FitsCanon(rt: Runtime, m: Mode, c: CVal) {
    match c
    case CData(future) => future.Ok? ==> FitsData(rt, m, future.value)
    case CStructure(elements) => forall i :: 0 <= i < |elements| ==> FitsCanon(rt, m, elements[i])
    case CClosure(param, body, env) =>
      Fits(rt, m, Lambda(param, body, NO_META)) && forall x :: x in env ==> FitsCanon(rt, m, env[x])
    case COperator(op, fixed, env) =>
      && FitsOperator(m, op)
      && (fixed.Some? ==> Fits(rt, m, fixed.value))
      && forall x :: x in env ==> FitsCanon(rt, m, env[x])
  }

  ghost predicate Same(rt: Runtime, m: Mode, x: XVal, y: XVal) {
    Canon(rt, m, x) == Canon(rt, m, y) && FitsCanon(rt, m, Canon(rt, m, x))
  }

  ghost predicate SameAll(rt: Runtime, m: Mode, xs: seq<XVal>, ys: seq<XVal>) {
    |xs| == |ys| && forall i :: 0 <= i < |xs| ==> Same(rt, m, xs[i], ys[i])
  }

  ghost predicate SameArgument(rt: Runtime, m: Mode, a: Option<XVal>, b: Option<XVal>) {
    (a.Some? <==> b.Some?) && (a.Some? ==> Same(rt, m, a.value, b.value)) && (a.None? ==> m.zeroArgument)
  }

  ghost predicate SameResult(rt: Runtime, m: Mode, r: Result<XVal>, q: Result<XVal>) {
    if r.Ok? then q.Ok? && Same(rt, m, r.value, q.value) else r == q
  }

  /** The same outcome: out of fuel together, the same error, or the same value. */
  ghost predicate SameOutcome(rt: Runtime, m: Mode, o: Outcome<XVal>, p: Outcome<XVal>) {
    if o.Done? then p.Done? && SameResult(rt, m, o.result, p.result) else p.OutOfFuel?
  }

  ghost predicate SameOutcomes(rt: Runtime, m: Mode, o: Outcome<seq<XVal>>, p: Outcome<seq<XVal>>) {
    if o.IsOk() then p.IsOk() && SameAll(rt, m, o.result.value, p.result.value) else o == p
  }

  /** The two scopes resolve every one of `names` to the same thing, or fail to together. */
  ghost predicate SameEnv(rt: Runtime, m: Mode, names: iset<string>, s: Scope, t: Scope) {
    && CanonEnv(rt, m, names, s) == CanonEnv(rt, m, names, t)
    && forall x :: x in CanonEnv(rt, m, names, s) ==> FitsCanon(rt, m, CanonEnv(rt, m, names, s)[x])
  }

  // ----- scopes -----

  lemma {:induction false} EnvAt(rt: Runtime, m: Mode, names: iset<string>, s: Scope, x: string)
    ensures x in CanonEnv(rt, m, names, s) <==> x in names && Resolve(s, x).Ok?
    ensures x in CanonEnv(rt, m, names, s) ==> CanonEnv(rt, m, names, s)[x] == Canon(rt, m, Resolve(s, x).value)
    decreases s
  {
    if s.Bind? {
      EnvAt(rt, m, if s.name in names then names - iset{s.name} else names, s.parent, x);
    }
  }

  lemma EnvSubset(rt: Runtime, m: Mode, few: iset<string>, many: iset<string>, s: Scope, t: Scope)
    requires few <= many && SameEnv(rt, m, many, s, t)
    ensures SameEnv(rt, m, few, s, t)
  {
    forall x
      ensures x in CanonEnv(rt, m, few, s) <==> x in CanonEnv(rt, m, few, t)
      ensures x in CanonEnv(rt, m, few, s) ==>
                && CanonEnv(rt, m, few, s)[x] == CanonEnv(rt, m, few, t)[x]
                && FitsCanon(rt, m, CanonEnv(rt, m, few, s)[x])
    {
      EnvAt(rt, m, few, s, x);
      EnvAt(rt, m, few, t, x);
      EnvAt(rt, m, many, s, x);
      EnvAt(rt, m, many, t, x);
    }
  }

  lemma EnvEmpty(rt: Runtime, m: Mode, s: Scope, t: Scope)
    ensures SameEnv(rt, m, iset{}, s, t)
  {
    forall x
      ensures x !in CanonEnv(rt, m, iset{}, s) && x !in CanonEnv(rt, m, iset{}, t)
    {
      EnvAt(rt, m, iset{}, s, x);
      EnvAt(rt, m, iset{}, t, x);
    }
  }

  lemma {:induction false} ResolveSame(rt: Runtime, m: Mode, s: Scope, t: Scope, x: string)
    requires SameEnv(rt, m, iset{x}, s, t)
    ensures SameResult(rt, m, Resolve(s, x), Resolve(t, x))
  {
    EnvAt(rt, m, iset{x}, s, x);
    EnvAt(rt, m, iset{x}, t, x);
    ResolveError(s, x);
    ResolveError(t, x);
  }

  lemma {:induction false} ResolveError(s: Scope, x: string)
    ensures Resolve(s, x).Err? ==> Resolve(s, x).code == NotFound
    decreases s
  {
    if s.Bind? {
      ResolveError(s.parent, x);
    }
  }

  lemma EnvBind(rt: Runtime, m: Mode, names: iset<string>, name: string, x: XVal, y: XVal, s: Scope, t: Scope)
    requires SameEnv(rt, m, names - iset{name}, s, t) && Same(rt, m, x, y)
    ensures SameEnv(rt, m, names, Bind(name, x, s), Bind(name, y, t))
  {
    if name !in names {
      assert names - iset{name} == names;
    }
  }

  // ----- embedding and the child's futures -----

  lemma {:induction false} EmbedSame(rt: Runtime, m: Mode, x: XVal, y: XVal)
    requires Same(rt, m, x, y)
    ensures Embed(x) == Embed(y)
    ensures Materialize(x) == Materialize(y)
    ensures Embed(x).Ok? && Embed(x).value.Ok? ==> FitsData(rt, m, Embed(x).value.value)
    decreases x, 1
  {
    match x
    case Embedded(_) =>
    case Closure(_, _, _) =>
    case Operator(_, _, _) =>
    case Structure(xs) =>
      var ys := y.elements;
      StructureSame(rt, m, xs, ys);
      EmbedAllSame(rt, m, xs, ys);
      if EmbedAll(xs).Ok? {
        MembersFit(rt, m, EmbedAll(xs).value);
      }
  }

  lemma StructureSame(rt: Runtime, m: Mode, xs: seq<XVal>, ys: seq<XVal>)
    ensures Same(rt, m, Structure(xs), Structure(ys)) <==> SameAll(rt, m, xs, ys)
  {
    var c, d := Canon(rt, m, Structure(xs)), Canon(rt, m, Structure(ys));
    if Same(rt, m, Structure(xs), Structure(ys)) {
      assert |c.elements| == |d.elements|;
      forall i | 0 <= i < |xs|
        ensures Same(rt, m, xs[i], ys[i])
      {
        assert c.elements[i] == d.elements[i];
      }
    }
  }

  lemma SameAllEmpty(rt: Runtime, m: Mode)
    ensures SameAll(rt, m, [], [])
  {
  }

  lemma SameAllCons(rt: Runtime, m: Mode, x: XVal, y: XVal, xs: seq<XVal>, ys: seq<XVal>)
    requires Same(rt, m, x, y) && SameAll(rt, m, xs, ys)
    ensures SameAll(rt, m, [x] + xs, [y] + ys)
  {
    hide Same;
  }

  lemma {:induction false} EmbedAllSame(rt: Runtime, m: Mode, xs: seq<XVal>, ys: seq<XVal>)
    requires SameAll(rt, m, xs, ys)
    ensures EmbedAll(xs) == EmbedAll(ys)
    ensures EmbedAll(xs).Ok? ==>
              forall i :: 0 <= i < |xs| ==> EmbedAll(xs).value[i].Ok? ==> FitsData(rt, m, EmbedAll(xs).value[i].value)
    decreases xs, 0
  {
    if xs != [] {
      EmbedSame(rt, m, xs[0], ys[0]);
      EmbedAllSame(rt, m, xs[1..], ys[1..]);
    }
  }

  lemma {:induction false} MembersFit(rt: Runtime, m: Mode, futures: seq<Result<Value>>)
    requires forall i :: 0 <= i < |futures| ==> futures[i].Ok? ==> FitsData(rt, m, futures[i].value)
    ensures ChildMembers(futures).Ok? ==>
              && |ChildMembers(futures).value| == |futures|
              && (forall i :: 0 <= i < |futures| ==> FitsData(rt, m, ChildMembers(futures).value[i]))
    ensures ChildStruct(futures).Ok? ==> FitsData(rt, m, ChildStruct(futures).value)
    decreases |futures|
  {
    if futures != [] {
      MembersFit(rt, m, futures[1..]);
    }
  }

  lemma SelectionSame(rt: Runtime, m: Mode, x: XVal, y: XVal, index: nat)
    requires Same(rt, m, x, y)
    ensures SameResult(rt, m, Selection(x, index), Selection(y, index))
  {
    match x
    case Embedded(future) =>
      if future.Ok? && future.value.Struct? && index < |future.value.elements| {
        ElementFits(rt, m, future.value, index);
      }
    case Structure(xs) => StructureSame(rt, m, xs, y.elements);
    case Closure(_, _, _) =>
    case Operator(_, _, _) =>
  }

  lemma ElementFits(rt: Runtime, m: Mode, d: Value, index: nat)
    requires FitsData(rt, m, d) && d.Struct? && index < |d.elements|
    ensures FitsData(rt, m, d.elements[index])
  {
    assert Free(rt, m, d.elements[index]) <= Free(rt, m, d);
  }

  lemma ApplyEmbeddedSame(rt: Runtime, m: Mode, f: Result<Value>, a: Option<XVal>, b: Option<XVal>)
    requires Covers(rt, m) && SameArgument(rt, m, a, b)
    ensures SameResult(rt, m, ApplyEmbedded(rt, f, a), ApplyEmbedded(rt, f, b))
  {
    if a.Some? {
      EmbedSame(rt, m, a.value, b.value);
      var e := Embed(a.value);
      if e.Ok? && ChildCall(rt, f, e.value).Ok? {
        assert ChildCall(rt, f, e.value) == rt.inline(f.value.uri, f.value.fixed, e.value.value);
      }
    }
  }
}
