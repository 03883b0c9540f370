/** Evaluation by rules. `Evaluator` says how a result is computed within a bound; here it is
    said what the result is, without a bound: one rule for each kind of expression, of function
    and of handler, in terms of the results of their parts. The theorems of `EvaluationExact`
    and `OperatorRules` show that evaluation follows exactly these rules, errors included. */
module EvaluationRules {
  import opened Common
  import opened Ir
  import opened Evaluator

  // ----- payloads -----

  /** The value has a control-flow operator among its parts, which cannot be embedded. */
  predicate HasOperator(x: XVal) {
    x.Operator? || (x.Structure? && exists i :: 0 <= i < |x.elements| && HasOperator(x.elements[i]))
  }

  /** The payload of a value. A struct has one when all its members do. */
  ghost predicate PayloadRule(x: XVal, r: Result<Value>) {
    match x
    case Embedded(future) => r == future
    case Closure(param, body, _) => r == Ok(Lambda(param, body, NO_META))
    case Operator(_, _, _) => r == Err(Internal)
    case Structure(xs) =>
      if HasOperator(x) then r == Err(Internal)
      else
        match r
        case Ok(d) =>
          && d.Struct? && d.meta == NO_META && |d.elements| == |xs|
          && forall i :: 0 <= i < |xs| ==> Materialize(xs[i]) == Ok(d.elements[i])
        case Err(c) =>
          exists i :: 0 <= i < |xs| && Materialize(xs[i]) == Err(c) && forall j :: 0 <= j < i ==> Materialize(xs[j]).Ok?
  }

  /** What a selection of member `index` gives. Out of the child it is a future, which keeps
      the error. */
  ghost predicate SelectionRule(x: XVal, index: int32, r: Result<XVal>) {
    var i := if index < 0 then index + 0x1_0000_0000 else index;
    match x
    case Structure(xs) => r == if i < |xs| then Ok(xs[i]) else Err(NotFound)
    case Embedded(Err(c)) => r == Ok(x)
    case Embedded(Ok(Struct(ds, _))) => r == Ok(Embedded(if i < |ds| then Ok(ds[i]) else Err(OutOfRange)))
    case Embedded(Ok(_)) => r == Ok(Embedded(Err(InvalidArgument)))
    case Closure(_, _, _) => r == Err(InvalidArgument)
    case Operator(_, _, _) => r == Err(InvalidArgument)
  }

  // ----- functions of the child executor -----

  /** What handlers ask of the static parameter. */
  predicate WellFormed(op: Op, fixed: Option<Value>) {
    match (op, fixed)
    case (Fallback, _) => true
    case (ParallelMap, _) => fixed != None
    case (SerialChain, Some(Struct(params, _))) => |params| > 0
    case (BreakableChain, Some(Struct(params, _))) => |params| > 0
    case (RepeatedConditionalChain, Some(Struct(params, _))) => |params| > 1
    case (Conditional, Some(Struct(params, _))) => |params| == 2
    case (Repeat, Some(Struct(params, _))) => |params| == 2
    case (While, Some(Struct(params, _))) => |params| == 2
    case _ => false
  }

  /** A call in the child executor: only inline functions can be called, on the payload of the
      argument, and then the answer is that of the handler. */
  ghost predicate InlineRule(rt: Runtime, f: Result<Value>, a: Result<Value>, r: Result<Value>) {
    match (f, a)
    case (Err(c), _) => r == Err(c)
    case (_, Err(c)) => r == Err(c)
    case (Ok(Intrinsic(uri, fixed, _)), Ok(d)) =>
      (match rt.kind(uri)
       case Unregistered => r == Err(NotFound)
       case ControlFlow(op) => r == Err(if WellFormed(op, fixed) then Internal else InvalidArgument)
       case Inline =>
         match rt.checkInline(uri, fixed)
         case Some(c) => r == Err(c)
         case None => r == rt.inline(uri, fixed, d))
    case _ => r == Err(InvalidArgument)
  }

  // ----- expressions -----

  /** What the context of a handler makes of `v`. */
  ghost predicate Makes(rt: Runtime, v: Value, s: Scope, r: Result<XVal>) {
    if v.NotSet? then r == Err(Unimplemented) else Evaluates(rt, v, s, r)
  }

  /** The function `f` is applied, unless it is an error. */
  ghost predicate AppliesResult(rt: Runtime, f: Result<XVal>, a: Option<XVal>, r: Result<XVal>) {
    if f.Err? then r == Err(f.code) else Applies(rt, f.value, a, r)
  }

  /** What the function that `v` evaluates to gives for `x`. */
  ghost predicate Responds(rt: Runtime, v: Value, s: Scope, x: XVal, r: Result<XVal>) {
    exists f :: Evaluates(rt, v, s, f) && AppliesResult(rt, f, Some(x), r)
  }

  /** How a list is worked through: each member is evaluated, made by the context of a handler,
      or made and then handed to `f`. */
  datatype Way = Evaluated | Made | Mapped(f: XVal)

  ghost predicate Gives(rt: Runtime, way: Way, v: Value, s: Scope, r: Result<XVal>) {
    match way
    case Evaluated => Evaluates(rt, v, s, r)
    case Made => Makes(rt, v, s, r)
    case Mapped(f) => exists x :: Makes(rt, v, s, x) && if x.Err? then r == Err(x.code) else Applies(rt, f, Some(x.value), r)
  }

  ghost predicate Succeeds(rt: Runtime, way: Way, v: Value, s: Scope) {
    exists x :: Gives(rt, way, v, s, Ok(x))
  }

  /** The results of `vs` in order, or the error of the first that fails. */
  ghost predicate InOrder(rt: Runtime, way: Way, vs: seq<Value>, s: Scope, r: Result<seq<XVal>>) {
    match r
    case Ok(xs) => |xs| == |vs| && forall i :: 0 <= i < |vs| ==> Gives(rt, way, vs[i], s, Ok(xs[i]))
    case Err(c) =>
      exists i :: 0 <= i < |vs| && Gives(rt, way, vs[i], s, Err(c))
                  && forall j :: 0 <= j < i ==> Succeeds(rt, way, vs[j], s)
  }

  function StructureOf(r: Result<seq<XVal>>): Result<XVal> {
    match r
    case Ok(xs) => Ok(Structure(xs))
    case Err(c) => Err(c)
  }

  ghost predicate CallRule(rt: Runtime, f: Result<XVal>, a: Option<Value>, s: Scope, r: Result<XVal>) {
    match (f, a)
    case (Err(c), _) => r == Err(c)
    case (Ok(g), None) => Applies(rt, g, None, r)
    case (Ok(g), Some(v)) =>
      exists x :: Evaluates(rt, v, s, x) && if x.Err? then r == Err(x.code) else Applies(rt, g, Some(x.value), r)
  }

  ghost predicate BlockRule(rt: Runtime, x: Result<XVal>, name: string, locals: seq<Local>, result: Value, s: Scope, r: Result<XVal>) {
    match x
    case Err(c) => r == Err(c)
    case Ok(y) => Evaluates(rt, Block(locals, result, NO_META), Bind(name, y, s), r)
  }

  ghost predicate EvaluationRule(rt: Runtime, v: Value, s: Scope, r: Result<XVal>) {
    match v
    case NotSet(_) => r == Ok(Embedded(Ok(v)))
    case Leaf(_, _) => r == Ok(Embedded(Ok(v)))
    case Struct(vs, _) => exists xs :: InOrder(rt, Evaluated, vs, s, xs) && r == StructureOf(xs)
    case Select(source, index, _) =>
      exists x :: Evaluates(rt, source, s, x) && if x.Err? then r == Err(x.code) else SelectionRule(x.value, index, r)
    case Ref(name, _) => r == Resolve(s, name)
    case Lambda(param, body, _) => r == Ok(Closure(param, body, s))
    case Call(f, a, _) => exists x :: Evaluates(rt, f, s, x) && CallRule(rt, x, a, s, r)
    case Block(locals, result, _) =>
      if locals == [] then Evaluates(rt, result, s, r)
      else exists x :: Evaluates(rt, locals[0].value, s, x) && BlockRule(rt, x, locals[0].name, locals[1..], result, s, r)
    case Intrinsic(uri, fixed, _) =>
      match rt.kind(uri)
      case Unregistered => r == Err(NotFound)
      case ControlFlow(op) => r == if WellFormed(op, fixed) then Ok(Operator(op, fixed, s)) else Err(InvalidArgument)
      case Inline =>
        match rt.checkInline(uri, fixed)
        case Some(c) => r == Err(c)
        case None => r == Ok(Embedded(Ok(v)))
  }

  // ----- chains -----

  /** A function of a chain: created when its turn comes, or beforehand. */
  datatype Callee = Written(code: Value) | Held(f: XVal)

  datatype Style = Serial | Breakable | Rounds

  /** A function either hands on a new state or ends the chain. */
  datatype Turn = Go(state: XVal) | Stop(result: Result<XVal>)

  ghost predicate Calls(rt: Runtime, f: Callee, s: Scope, x: XVal, r: Result<XVal>) {
    match f
    case Held(g) => Applies(rt, g, Some(x), r)
    case Written(v) => exists g :: Makes(rt, v, s, g) && AppliesResult(rt, g, Some(x), r)
  }

  ghost predicate Takes(rt: Runtime, style: Style, f: Callee, s: Scope, x: XVal, t: Turn) {
    exists y :: Calls(rt, f, s, x, y) && Answered(rt, style, s, x, y, t)
  }

  ghost predicate Answered(rt: Runtime, style: Style, s: Scope, x: XVal, y: Result<XVal>, t: Turn) {
    match y
    case Err(c) => t == Stop(Err(c))
    case Ok(z) => if style == Serial then t == Go(z) else Steered(rt, style, s, x, z, Materialize(z), t)
  }

  /** A true answer ends the chain with the current state and a false one keeps the state; any
      other answer is the next state, which the repeated chain creates again. */
  ghost predicate Steered(rt: Runtime, style: Style, s: Scope, x: XVal, z: XVal, d: Result<Value>, t: Turn) {
    match d
    case Err(c) => t == Stop(Err(c))
    case Ok(Leaf(Boolean(b), _)) => t == if b then Stop(Ok(x)) else Go(x)
    case Ok(v) =>
      if style == Breakable then t == Go(z)
      else exists y :: Makes(rt, v, s, y) && t == if y.Ok? then Go(y.value) else Stop(Err(y.code))
  }

  /** `path` are the states of the chain, one for each function that had its turn; `r` is the
      last of them when every function had one, and otherwise what the function that ended
      the chain decided. */
  ghost predicate Follows(rt: Runtime, style: Style, fs: seq<Callee>, s: Scope, path: seq<XVal>, r: Result<XVal>) {
    && 0 < |path| <= |fs| + 1
    && (forall i :: 0 <= i < |path| - 1 ==> Takes(rt, style, fs[i], s, path[i], Go(path[i + 1])))
    && if |path| == |fs| + 1 then r == Ok(path[|path| - 1])
       else Takes(rt, style, fs[|path| - 1], s, path[|path| - 1], Stop(r))
  }

  ghost predicate ChainRule(rt: Runtime, style: Style, fs: seq<Callee>, s: Scope, x: XVal, r: Result<XVal>) {
    exists path :: Follows(rt, style, fs, s, path, r) && path[0] == x
  }

  function AsWritten(vs: seq<Value>): seq<Callee> {
    seq(|vs|, i requires 0 <= i < |vs| => Written(vs[i]))
  }

  function AsHeld(fs: seq<XVal>): seq<Callee> {
    seq(|fs|, i requires 0 <= i < |fs| => Held(fs[i]))
  }

  function Copies<T>(k: int, ts: seq<T>): seq<T>
    decreases if k < 0 then 0 else k
  {
    if k <= 0 then [] else ts + Copies(k - 1, ts)
  }

  // ----- the other handlers -----

  /** Candidate `v`, made, called on `a` and materialised: the value, if all of that works. */
  ghost predicate Tries(rt: Runtime, v: Value, s: Scope, a: Option<XVal>, r: Result<XVal>) {
    exists f, y :: Makes(rt, v, s, f) && AppliesResult(rt, f, a, y) && r == Checked(y)
  }

  function Checked(y: Result<XVal>): Result<XVal> {
    if y.Ok? && Materialize(y.value).Err? then Err(Materialize(y.value).code) else y
  }

  ghost predicate Misses(rt: Runtime, v: Value, s: Scope, a: Option<XVal>) {
    exists c :: Tries(rt, v, s, a, Err(c))
  }

  /** The first candidate that works; otherwise the error of the last one. */
  ghost predicate FallbackRule(rt: Runtime, vs: seq<Value>, s: Scope, a: Option<XVal>, none: Code, r: Result<XVal>) {
    match r
    case Ok(y) =>
      exists i :: 0 <= i < |vs| && Tries(rt, vs[i], s, a, r) && forall j :: 0 <= j < i ==> Misses(rt, vs[j], s, a)
    case Err(c) =>
      && (forall i :: 0 <= i < |vs| ==> Misses(rt, vs[i], s, a))
      && if vs == [] then c == none else Tries(rt, vs[|vs| - 1], s, a, r)
  }

  ghost predicate ConditionalRule(rt: Runtime, positive: Value, negative: Value, s: Scope, d: Result<Value>, r: Result<XVal>) {
    match d
    case Err(c) => r == Err(c)
    case Ok(Leaf(Boolean(b), _)) => Makes(rt, if b then positive else negative, s, r)
    case Ok(_) => r == Err(InvalidArgument)
  }

  ghost predicate MapRule(rt: Runtime, fn: Value, s: Scope, d: Result<Value>, r: Result<XVal>) {
    match d
    case Err(c) => r == Err(c)
    case Ok(v) => exists f :: Makes(rt, fn, s, f) && MappedRule(rt, f, if v.Struct? then v.elements else [], s, r)
  }

  ghost predicate MappedRule(rt: Runtime, f: Result<XVal>, es: seq<Value>, s: Scope, r: Result<XVal>) {
    if f.Err? then r == Err(f.code)
    else exists ys :: InOrder(rt, Mapped(f.value), es, s, ys) && r == StructureOf(ys)
  }

  /** The condition has answered: go on to the body, or end. */
  ghost predicate LoopTurn(rt: Runtime, condition: XVal, body: XVal, x: XVal, t: Turn) {
    exists c :: Applies(rt, condition, Some(x), c) && LoopAnswered(rt, body, x, Checked(c), t)
  }

  ghost predicate LoopAnswered(rt: Runtime, body: XVal, x: XVal, c: Result<XVal>, t: Turn) {
    if c.Err? then t == Stop(Err(c.code))
    else
      match Materialize(c.value)
      case Ok(Leaf(Boolean(true), _)) =>
        exists y :: Applies(rt, body, Some(x), y) && t == if y.Ok? then Go(y.value) else Stop(Err(y.code))
      case Ok(Leaf(Boolean(false), _)) => t == Stop(Ok(x))
      case _ => t == Stop(Err(InvalidArgument))
  }

  ghost predicate LoopPath(rt: Runtime, condition: XVal, body: XVal, path: seq<XVal>, r: Result<XVal>) {
    && |path| > 0
    && (forall i :: 0 <= i < |path| - 1 ==> LoopTurn(rt, condition, body, path[i], Go(path[i + 1])))
    && LoopTurn(rt, condition, body, path[|path| - 1], Stop(r))
  }

  ghost predicate LoopRule(rt: Runtime, condition: XVal, body: XVal, x: XVal, r: Result<XVal>) {
    exists path :: LoopPath(rt, condition, body, path, r) && path[0] == x
  }

  // ----- functions -----

  /** The bodies of a loop have been made. An argument is needed from here on. */
  ghost predicate RepeatRule(rt: Runtime, count: Value, body: Result<XVal>, s: Scope, a: Option<XVal>, r: Result<XVal>) {
    match (body, a)
    case (Err(c), _) => r == Err(c)
    case (_, None) => r == Err(MissingOptional)
    case (Ok(f), Some(x)) => ChainRule(rt, Serial, Copies(CountOf(count), [Held(f)]), s, x, r)
  }

  function CountOf(v: Value): int {
    match v
    case Leaf(Int32(k), _) => k
    case _ => 0
  }

  ghost predicate RoundsRule(rt: Runtime, count: Value, fs: Result<seq<XVal>>, s: Scope, a: Option<XVal>, r: Result<XVal>) {
    match (fs, a)
    case (Err(c), _) => r == Err(c)
    case (_, None) => r == Err(MissingOptional)
    case (Ok(gs), Some(x)) => ChainRule(rt, Rounds, Copies(CountOf(count), AsHeld(gs)), s, x, r)
  }

  ghost predicate WhileRule(rt: Runtime, condition: Result<XVal>, second: Value, s: Scope, a: Option<XVal>, r: Result<XVal>) {
    if condition.Err? then r == Err(condition.code)
    else exists body :: Makes(rt, second, s, body) && WhileBodyRule(rt, condition.value, body, a, r)
  }

  ghost predicate WhileBodyRule(rt: Runtime, condition: XVal, body: Result<XVal>, a: Option<XVal>, r: Result<XVal>) {
    match (body, a)
    case (Err(c), _) => r == Err(c)
    case (_, None) => r == Err(MissingOptional)
    case (Ok(f), Some(x)) => LoopRule(rt, condition, f, x, r)
  }

  ghost predicate OperatorRule(rt: Runtime, op: Op, fixed: Option<Value>, s: Scope, a: Option<XVal>, r: Result<XVal>)
    requires WellFormed(op, fixed)
  {
    match op
    case SerialChain =>
      if a.None? then r == Err(MissingOptional) else ChainRule(rt, Serial, AsWritten(fixed.value.elements), s, a.value, r)
    case BreakableChain =>
      if a.None? then r == Err(MissingOptional) else ChainRule(rt, Breakable, AsWritten(fixed.value.elements), s, a.value, r)
    case Conditional =>
      if a.None? then r == Err(InvalidArgument)
      else ConditionalRule(rt, fixed.value.elements[0], fixed.value.elements[1], s, Materialize(a.value), r)
    case Fallback =>
      FallbackRule(rt, if fixed.Some? && fixed.value.Struct? then fixed.value.elements else [], s, a, Unavailable, r)
    case ParallelMap => if a.None? then r == Err(MissingOptional) else MapRule(rt, fixed.value, s, Materialize(a.value), r)
    case Repeat =>
      exists f :: Makes(rt, fixed.value.elements[1], s, f) && RepeatRule(rt, fixed.value.elements[0], f, s, a, r)
    case While =>
      exists f :: Makes(rt, fixed.value.elements[0], s, f) && WhileRule(rt, f, fixed.value.elements[1], s, a, r)
    case RepeatedConditionalChain =>
      exists fs :: InOrder(rt, Made, fixed.value.elements[1..], s, fs) && RoundsRule(rt, fixed.value.elements[0], fs, s, a, r)
  }

  /** An operator as evaluation makes it. */
  predicate Callable(f: XVal) {
    f.Operator? ==> WellFormed(f.op, f.fixed)
  }

  ghost predicate ApplicationRule(rt: Runtime, f: XVal, a: Option<XVal>, r: Result<XVal>)
    requires Callable(f)
  {
    match f
    case Structure(_) => r == Err(InvalidArgument)
    case Embedded(future) =>
      if a.None? then r == Err(InvalidArgument)
      else if HasOperator(a.value) then r == Err(Internal)
      else exists d :: InlineRule(rt, future, Materialize(a.value), d) && r == Ok(Embedded(d))
    case Closure(param, body, scope) =>
      (match a
       case None => Evaluates(rt, body, scope, r)
       case Some(x) => Evaluates(rt, body, Bind(param, x, scope), r))
    case Operator(op, fixed, scope) => OperatorRule(rt, op, fixed, scope, a, r)
  }
}
