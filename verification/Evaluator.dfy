/** What the control-flow executor computes on top of the inline executor. */
module Evaluator {
  import opened Common
  import opened Ir

  // genc/cc/runtime/control_flow_executor.cc, genc/cc/runtime/inline_executor.cc and the
  // control-flow handlers of genc/cc/intrinsics.
  //
  // A value of the child executor is a future. The future's outcome is settled by the
  // futures it was built from, so an embedded value is modelled by that outcome. An error
  // inside a future is *lazy*: it shows only when the value is materialised. Every other
  // error is *eager*: the call that builds the value returns it.
  //
  // Evaluation is bounded by `n`; `OutOfFuel` is the outcome of a bound that was too small.

  datatype Op =
    | BreakableChain
    | SerialChain
    | Conditional
    | Fallback
    | ParallelMap
    | Repeat
    | While
    | RepeatedConditionalChain

  datatype HandlerKind = Unregistered | Inline | ControlFlow(op: Op)

  /** The registered intrinsic handlers. Inline handlers are deterministic functions of
      the uri, the static parameter and the argument. */
  datatype Runtime = Runtime(
    kind: string -> HandlerKind,
    checkInline: (string, Option<Value>) -> Option<Code>,
    inline: (string, Option<Value>, Value) -> Result<Value>)

  datatype XVal =
    | Embedded(future: Result<Value>)
    | Structure(elements: seq<XVal>)
    | Closure(param: string, body: Value, scope: Scope)
    | Operator(op: Op, fixed: Option<Value>, scope: Scope)

  datatype Scope = Root | Bind(name: string, value: XVal, parent: Scope)

  function Resolve(s: Scope, name: string): Result<XVal> {
    match s
    case Root => Err(NotFound)
    case Bind(n, x, parent) => if n == name then Ok(x) else Resolve(parent, name)
  }

  // ----- handlers: lookup and well-formedness -----

  function CheckOp(op: Op, fixed: Option<Value>): Option<Code> {
    var size := |FixedElements(fixed)|;
    var good := match op
      case BreakableChain => HasFixedStruct(fixed) && size >= 1
      case SerialChain => HasFixedStruct(fixed) && size >= 1
      case Conditional => HasFixedStruct(fixed) && size == 2
      case Fallback => true
      case ParallelMap => fixed.Some?
      case Repeat => HasFixedStruct(fixed) && size == 2
      case While => size == 2
      case RepeatedConditionalChain => HasFixedStruct(fixed) && size >= 2;
    if good then None else Some(InvalidArgument)
  }

  function CheckWellFormed(rt: Runtime, uri: string, fixed: Option<Value>): Option<Code> {
    match rt.kind(uri)
    case Unregistered => Some(NotFound)
    case Inline => rt.checkInline(uri, fixed)
    case ControlFlow(op) => CheckOp(op, fixed)
  }

  // ----- the inline executor: outcomes of its futures -----

  function ChildCall(rt: Runtime, f: Result<Value>, a: Result<Value>): Result<Value> {
    var fn :- f;
    var arg :- a;
    if !fn.Intrinsic? then Err(InvalidArgument)
    else
      var bad := CheckWellFormed(rt, fn.uri, fn.fixed);
      if bad.Some? then Err(bad.value)
      else if !rt.kind(fn.uri).Inline? then Err(Internal)
      else rt.inline(fn.uri, fn.fixed, arg)
  }

  function ChildMembers(futures: seq<Result<Value>>): Result<seq<Value>> {
    if futures == [] then Ok([])
    else
      var first :- futures[0];
      var rest :- ChildMembers(futures[1..]);
      Ok([first] + rest)
  }

  function ChildStruct(futures: seq<Result<Value>>): Result<Value> {
    var members :- ChildMembers(futures);
    Ok(Struct(members, NO_META))
  }

  function ChildSelect(f: Result<Value>, index: nat): Result<Value> {
    var v :- f;
    if !v.Struct? then Err(InvalidArgument)
    else if |v.elements| <= index then Err(OutOfRange)
    else Ok(v.elements[index])
  }

  // ----- the control-flow executor: embedding, materialising, selecting -----

  /** The child future that stands for `x`; an `Err` of the outer result is eager. */
  function Embed(x: XVal): Result<Result<Value>>
    decreases x, 1
  {
    match x
    case Embedded(future) => Ok(future)
    case Structure(elements) =>
      var fields :- EmbedAll(elements);
      Ok(ChildStruct(fields))
    case Closure(param, body, _) => Ok(Ok(Lambda(param, body, NO_META)))
    case Operator(_, _, _) => Err(Internal)
  }

  function EmbedAll(xs: seq<XVal>): (r: Result<seq<Result<Value>>>)
    ensures r.Ok? ==> |r.value| == |xs|
    decreases xs, 0
  {
    if xs == [] then Ok([])
    else
      var first :- Embed(xs[0]);
      var rest :- EmbedAll(xs[1..]);
      Ok([first] + rest)
  }

  function Materialize(x: XVal): Result<Value> {
    var future :- Embed(x);
    future
  }

  function Selection(x: XVal, index: nat): Result<XVal> {
    match x
    case Embedded(future) => Ok(Embedded(ChildSelect(future, index)))
    case Structure(elements) => if index < |elements| then Ok(elements[index]) else Err(NotFound)
    case Closure(_, _, _) => Err(InvalidArgument)
    case Operator(_, _, _) => Err(InvalidArgument)
  }

  // ----- evaluation -----

  function EvalIntrinsic(rt: Runtime, uri: string, fixed: Option<Value>, meta: Meta, s: Scope): Result<XVal> {
    var bad := CheckWellFormed(rt, uri, fixed);
    if bad.Some? then Err(bad.value)
    else if rt.kind(uri).ControlFlow? then Ok(Operator(rt.kind(uri).op, fixed, s))
    else Ok(Embedded(Ok(Intrinsic(uri, fixed, meta))))
  }

  function Eval(rt: Runtime, n: nat, v: Value, s: Scope): Outcome<XVal>
    decreases n, 0, 0
  {
    if n == 0 then OutOfFuel else
    match v
    case NotSet(_) => Done(Ok(Embedded(Ok(v))))
    case Leaf(_, _) => Done(Ok(Embedded(Ok(v))))
    case Struct(elements, _) =>
      var xs :- EvalAll(rt, n - 1, elements, s);
      Done(Ok(Structure(xs)))
    case Select(source, index, _) =>
      var x :- Eval(rt, n - 1, source, s);
      Done(Selection(x, U32(index)))
    case Ref(name, _) => Done(Resolve(s, name))
    case Lambda(param, body, _) => Done(Ok(Closure(param, body, s)))
    case Call(f, a, _) =>
      var fn :- Eval(rt, n - 1, f, s);
      var arg :- EvalArgument(rt, n - 1, a, s);
      Apply(rt, n - 1, fn, arg)
    case Block(locals, result, _) => EvalBlock(rt, n - 1, locals, result, s)
    case Intrinsic(uri, fixed, meta) => Done(EvalIntrinsic(rt, uri, fixed, meta, s))
  }

  function EvalArgument(rt: Runtime, n: nat, a: Option<Value>, s: Scope): Outcome<Option<XVal>>
    decreases n, 1, 0
  {
    if a.None? then Done(Ok(None))
    else
      var x :- Eval(rt, n, a.value, s);
      Done(Ok(Some(x)))
  }

  function EvalAll(rt: Runtime, n: nat, vs: seq<Value>, s: Scope): (r: Outcome<seq<XVal>>)
    ensures r.IsOk() ==> |r.result.value| == |vs|
    decreases n, 1, |vs|
  {
    if vs == [] then Done(Ok([]))
    else
      var first :- Eval(rt, n, vs[0], s);
      var rest :- EvalAll(rt, n, vs[1..], s);
      Done(Ok([first] + rest))
  }

  function EvalBlock(rt: Runtime, n: nat, locals: seq<Local>, result: Value, s: Scope): Outcome<XVal>
    decreases n, 1, |locals|
  {
    if locals == [] then Eval(rt, n, result, s)
    else
      var x :- Eval(rt, n, locals[0].value, s);
      EvalBlock(rt, n, locals[1..], result, Bind(locals[0].name, x, s))
  }

  /** `ConstCreateCall`. A lambda called without an argument binds nothing. */
  function Apply(rt: Runtime, n: nat, f: XVal, a: Option<XVal>): Outcome<XVal>
    decreases n, 0, 0
  {
    if n == 0 then OutOfFuel else
    match f
    case Embedded(future) => Done(ApplyEmbedded(rt, future, a))
    case Structure(_) => Done(Err(InvalidArgument))
    case Closure(param, body, scope) =>
      Eval(rt, n - 1, body, if a.Some? then Bind(param, a.value, scope) else scope)
    case Operator(op, fixed, scope) => Exec(rt, n - 1, op, fixed, a, scope)
  }

  function ApplyEmbedded(rt: Runtime, f: Result<Value>, a: Option<XVal>): Result<XVal> {
    if a.None? then Err(InvalidArgument)
    else
      var arg :- Embed(a.value);
      Ok(Embedded(ChildCall(rt, f, arg)))
  }

  // ----- the control-flow handlers -----

  /** `CreateValue` of the handler's context, in the scope the operator captured. */
  function Create(rt: Runtime, n: nat, v: Value, s: Scope): Outcome<XVal>
    decreases n, 0, 1
  {
    if v.NotSet? then Done(Err(Unimplemented)) else Eval(rt, n, v, s)
  }

  /** `CreateCall` followed by `Materialize`: the value and its payload. */
  function Ask(rt: Runtime, n: nat, f: XVal, a: Option<XVal>): Outcome<(XVal, Value)>
    decreases n, 0, 1
  {
    var y :- Apply(rt, n, f, a);
    var d :- Done(Materialize(y));
    Done(Ok((y, d)))
  }

  /** The `index`-th static parameter. `CheckOp` has ruled out a missing one. */
  function FixedAt(fixed: Option<Value>, index: nat): Value {
    if index < |FixedElements(fixed)| then FixedElements(fixed)[index] else NotSet(NO_META)
  }

  /** `ExecuteCall` of the handler for `op`. */
  function Exec(rt: Runtime, n: nat, op: Op, fixed: Option<Value>, a: Option<XVal>, s: Scope): Outcome<XVal>
    decreases n, 3, 0
  {
    match op
    case SerialChain =>
      if a.None? then Done(Err(MissingOptional)) else SerialFrom(rt, n, FixedElements(fixed), a.value, s)
    case BreakableChain =>
      if a.None? then Done(Err(MissingOptional)) else BreakableFrom(rt, n, FixedElements(fixed), a.value, s)
    case Conditional => if a.None? then Done(Err(InvalidArgument)) else ExecConditional(rt, n, fixed, a.value, s)
    case Fallback => FallbackFrom(rt, n, FixedElements(fixed), a, Unavailable, s)
    case ParallelMap =>
      if a.None? || fixed.None? then Done(Err(MissingOptional)) else ExecMap(rt, n, fixed.value, a.value, s)
    case Repeat =>
      var body :- Create(rt, n, FixedAt(fixed, 1), s);
      if a.None? then Done(Err(MissingOptional)) else RepeatFrom(rt, n, body, Int32Of(FixedAt(fixed, 0)), a.value)
    case While =>
      var condition :- Create(rt, n, FixedAt(fixed, 0), s);
      var body :- Create(rt, n, FixedAt(fixed, 1), s);
      if a.None? then Done(Err(MissingOptional)) else WhileFrom(rt, n, condition, body, a.value)
    case RepeatedConditionalChain =>
      var params := FixedElements(fixed);
      var fns :- CreateAll(rt, n, if params == [] then [] else params[1..], s);
      if a.None? then Done(Err(MissingOptional))
      else RoundsFrom(rt, n, Int32Of(FixedAt(fixed, 0)), fns, a.value, s)
  }

  function CreateAll(rt: Runtime, n: nat, vs: seq<Value>, s: Scope): (r: Outcome<seq<XVal>>)
    ensures r.IsOk() ==> |r.result.value| == |vs|
    decreases n, 1, |vs|
  {
    if vs == [] then Done(Ok([]))
    else
      var first :- Create(rt, n, vs[0], s);
      var rest :- CreateAll(rt, n, vs[1..], s);
      Done(Ok([first] + rest))
  }

  function SerialFrom(rt: Runtime, n: nat, fns: seq<Value>, x: XVal, s: Scope): Outcome<XVal>
    decreases n, 1, |fns|
  {
    if fns == [] then Done(Ok(x))
    else
      var f :- Create(rt, n, fns[0], s);
      var y :- Apply(rt, n, f, Some(x));
      SerialFrom(rt, n, fns[1..], y, s)
  }

  function BreakableFrom(rt: Runtime, n: nat, fns: seq<Value>, x: XVal, s: Scope): Outcome<XVal>
    decreases n, 1, |fns|
  {
    if fns == [] then Done(Ok(x))
    else
      var f :- Create(rt, n, fns[0], s);
      var (y, d) :- Ask(rt, n, f, Some(x));
      if !IsBoolean(d) then BreakableFrom(rt, n, fns[1..], y, s)
      else if BooleanOf(d) then Done(Ok(x))
      else BreakableFrom(rt, n, fns[1..], x, s)
  }

  function ExecConditional(rt: Runtime, n: nat, fixed: Option<Value>, a: XVal, s: Scope): Outcome<XVal>
    decreases n, 2, 0
  {
    var d :- Done(Materialize(a));
    if !IsBoolean(d) then Done(Err(InvalidArgument))
    else Create(rt, n, if BooleanOf(d) then FixedAt(fixed, 0) else FixedAt(fixed, 1), s)
  }

  /** The outcome of one candidate of `Fallback`: what building and materialising it gives. */
  function Candidate(rt: Runtime, n: nat, v: Value, a: Option<XVal>, s: Scope): Outcome<XVal>
    decreases n, 1, 0
  {
    var f :- Create(rt, n, v, s);
    var (y, d) :- Ask(rt, n, f, a);
    Done(Ok(y))
  }

  function FallbackFrom(rt: Runtime, n: nat, fns: seq<Value>, a: Option<XVal>, error: Code, s: Scope): Outcome<XVal>
    decreases n, 2, |fns|
  {
    if fns == [] then Done(Err(error))
    else
      var y := Candidate(rt, n, fns[0], a, s);
      if y.OutOfFuel? || y.result.Ok? then y
      else FallbackFrom(rt, n, fns[1..], a, y.result.code, s)
  }

  function ExecMap(rt: Runtime, n: nat, fn: Value, a: XVal, s: Scope): Outcome<XVal>
    decreases n, 2, 0
  {
    var d :- Done(Materialize(a));
    var f :- Create(rt, n, fn, s);
    var ys :- MapFrom(rt, n, f, ElementsOf(d), s);
    Done(Ok(Structure(ys)))
  }

  function MapFrom(rt: Runtime, n: nat, f: XVal, ds: seq<Value>, s: Scope): (r: Outcome<seq<XVal>>)
    ensures r.IsOk() ==> |r.result.value| == |ds|
    decreases n, 1, |ds|
  {
    if ds == [] then Done(Ok([]))
    else
      var x :- Create(rt, n, ds[0], s);
      var y :- Apply(rt, n, f, Some(x));
      var rest :- MapFrom(rt, n, f, ds[1..], s);
      Done(Ok([y] + rest))
  }

  function RepeatFrom(rt: Runtime, n: nat, body: XVal, k: int, x: XVal): Outcome<XVal>
    decreases n, 1, if k < 0 then 0 else k
  {
    if k <= 0 then Done(Ok(x))
    else
      var y :- Apply(rt, n, body, Some(x));
      RepeatFrom(rt, n, body, k - 1, y)
  }

  function WhileFrom(rt: Runtime, n: nat, condition: XVal, body: XVal, x: XVal): Outcome<XVal>
    decreases n, 1, 0
  {
    if n == 0 then OutOfFuel
    else
      var (c, d) :- Ask(rt, n - 1, condition, Some(x));
      if !IsBoolean(d) then Done(Err(InvalidArgument))
      else if !BooleanOf(d) then Done(Ok(x))
      else
        var y :- Apply(rt, n - 1, body, Some(x));
        WhileFrom(rt, n - 1, condition, body, y)
  }

  /** One pass of the inner loop of `RepeatedConditionalChain`: the state it ends in and
      whether some function asked to break. */
  function Round(rt: Runtime, n: nat, fns: seq<XVal>, x: XVal, s: Scope): Outcome<(XVal, bool)>
    decreases n, 1, |fns|
  {
    if fns == [] then Done(Ok((x, false)))
    else
      var (y, d) :- Ask(rt, n, fns[0], Some(x));
      if !IsBoolean(d) then
        var state :- Create(rt, n, d, s);
        Round(rt, n, fns[1..], state, s)
      else if BooleanOf(d) then Done(Ok((x, true)))
      else Round(rt, n, fns[1..], x, s)
  }

  function RoundsFrom(rt: Runtime, n: nat, k: int, fns: seq<XVal>, x: XVal, s: Scope): Outcome<XVal>
    decreases n, 2, if k < 0 then 0 else k
  {
    if k <= 0 then Done(Ok(x))
    else
      var (state, broke) :- Round(rt, n, fns, x, s);
      if broke then Done(Ok(state)) else RoundsFrom(rt, n, k - 1, fns, state, s)
  }

  // ----- single turns of the loops -----

  /** One call of `ParallelMap`: on the element `e` of the payload. */
  function OnElement(rt: Runtime, n: nat, f: XVal, e: Value, s: Scope): Outcome<XVal> {
    var x :- Create(rt, n, e, s);
    Apply(rt, n, f, Some(x))
  }

  /** The members evaluated so far, followed by what evaluating the others gives. */
  ghost function Followed(done: seq<XVal>, rest: Outcome<seq<XVal>>): Outcome<seq<XVal>> {
    match rest
    case OutOfFuel => OutOfFuel
    case Done(Err(c)) => Done(Err(c))
    case Done(Ok(xs)) => Done(Ok(done + xs))
  }

  lemma {:induction false} MapUnfolds(rt: Runtime, n: nat, f: XVal, ds: seq<Value>, s: Scope)
    ensures ds == [] ==> MapFrom(rt, n, f, ds, s) == Done(Ok([]))
    ensures ds != [] ==>
      var y := OnElement(rt, n, f, ds[0], s);
      MapFrom(rt, n, f, ds, s) ==
        if y.IsOk() then Followed([y.result.value], MapFrom(rt, n, f, ds[1..], s)) else y.PropagateFailure()
  {
  }

  lemma {:induction false} WhileNoFuel(rt: Runtime, condition: XVal, body: XVal, x: XVal)
    ensures WhileFrom(rt, 0, condition, body, x) == OutOfFuel
  {
  }

  // ----- enough fuel -----

  /** `v` evaluates to `r` in `s`, whatever the cost. */
  ghost predicate Evaluates(rt: Runtime, v: Value, s: Scope, r: Result<XVal>) {
    exists n: nat :: Eval(rt, n, v, s) == Done(r)
  }

  ghost predicate Applies(rt: Runtime, f: XVal, a: Option<XVal>, r: Result<XVal>) {
    exists n: nat :: Apply(rt, n, f, a) == Done(r)
  }
}
