/** The tracing compiler, as a function on the list of traced values. */
module Tracing {
  import opened Common
  import opened Ir
  import opened Names

  // genc/python/authoring/tracing_context.py and tracing_decorator.py. A trace is the list of
  // the values bound so far; the `i`-th is bound to `v_<i>`.

  type Trace = seq<Value>

  function Arg(): Value { Ref("arg", NO_META) }

  function RefTo(i: nat): Value { Ref(VarName(i), NO_META) }

  function IndexOf(irs: Trace, v: Value): (i: nat)
    requires v in irs
    ensures i < |irs| && irs[i] == v
  {
    if irs[0] == v then 0 else 1 + IndexOf(irs[1..], v)
  }

  /** `_replace_with_reference`. */
  function Intern(irs: Trace, v: Value): (r: (Trace, Value))
    ensures irs <= r.0 && r.1.Ref?
  {
    if v.Ref? then (irs, v)
    else if v in irs then (irs, RefTo(IndexOf(irs, v)))
    else (irs + [v], RefTo(|irs|))
  }

  function InternAll(irs: Trace, vs: seq<Value>): (r: (Trace, seq<Value>))
    ensures irs <= r.0 && |r.1| == |vs|
    decreases |vs|
  {
    if vs == [] then (irs, [])
    else
      var (irs', most) := InternAll(irs, vs[..|vs| - 1]);
      var (irs'', last) := Intern(irs', vs[|vs| - 1]);
      (irs'', most + [last])
  }

  /** Several arguments are packed into one struct. */
  function Input(args: seq<Value>): Value
    requires |args| > 0
  {
    if |args| > 1 then Struct(args, NO_META) else args[0]
  }

  /** `TracingContext.call`: arguments, then function, then the call itself. */
  function TraceCall(irs: Trace, fn: Value, args: seq<Value>): (r: (Trace, Value))
    requires |args| > 0
    ensures irs <= r.0 && r.1.Ref?
  {
    var (irs1, refs) := InternAll(irs, args);
    var (irs2, f) := Intern(irs1, fn);
    Intern(irs2, Call(f, Some(Input(refs)), NO_META))
  }

  // ----- traced programs -----

  /** What a traced function passes around: one of its parameters, the result of an earlier
      call, or IR of its own. */
  datatype Operand = Param(index: nat) | Earlier(step: nat) | Own(ir: Value)

  /** What the traced function has the context do: make a call, or give a value a name
      (`embed`). */
  datatype Step = CallStep(fn: Operand, args: seq<Operand>) | EmbedStep(value: Operand)

  datatype Program = Program(arity: nat, steps: seq<Step>, result: Operand)

  predicate OperandOk(p: Program, k: nat, o: Operand) {
    match o
    case Param(i) => i < p.arity && i < 0x8000_0000
    case Earlier(j) => j < k
    case Own(ir) => !ir.Ref?
  }

  predicate StepOk(p: Program, k: nat, c: Step) {
    match c
    case CallStep(fn, args) =>
      |args| > 0 && OperandOk(p, k, fn) && forall i :: 0 <= i < |args| ==> OperandOk(p, k, args[i])
    case EmbedStep(value) => OperandOk(p, k, value)
  }

  predicate ProgramOk(p: Program) {
    && p.arity > 0
    && (forall k :: 0 <= k < |p.steps| ==> StepOk(p, k, p.steps[k]))
    && OperandOk(p, |p.steps|, p.result)
  }

  /** The expression a parameter stands for inside the traced function. */
  function ParamIr(p: Program, i: nat): Value
    requires i < 0x8000_0000
  {
    if p.arity > 1 then Select(Arg(), i, NO_META) else Arg()
  }

  function OperandIr(p: Program, results: seq<Value>, o: Operand): Value
    requires OperandOk(p, |results|, o)
  {
    match o
    case Param(i) => ParamIr(p, i)
    case Earlier(j) => results[j]
    case Own(ir) => ir
  }

  function OperandIrs(p: Program, results: seq<Value>, os: seq<Operand>): seq<Value>
    requires forall i :: 0 <= i < |os| ==> OperandOk(p, |results|, os[i])
  {
    seq(|os|, i requires 0 <= i < |os| => OperandIr(p, results, os[i]))
  }

  function TraceStep(p: Program, irs: Trace, results: seq<Value>, c: Step): (r: (Trace, Value))
    requires StepOk(p, |results|, c)
    ensures irs <= r.0 && r.1.Ref?
  {
    match c
    case CallStep(fn, args) => TraceCall(irs, OperandIr(p, results, fn), OperandIrs(p, results, args))
    case EmbedStep(value) => Intern(irs, OperandIr(p, results, value))
  }

  /** The trace after the first `k` steps, and the references they returned. */
  function TraceSteps(p: Program, k: nat): (r: (Trace, seq<Value>))
    requires ProgramOk(p) && k <= |p.steps|
    ensures |r.1| == k
    decreases k
  {
    if k == 0 then ([], [])
    else
      var (irs, results) := TraceSteps(p, k - 1);
      var (irs', r) := TraceStep(p, irs, results, p.steps[k - 1]);
      (irs', results + [r])
  }

  function LocalsOf(irs: Trace): seq<Local> {
    seq(|irs|, i requires 0 <= i < |irs| => Local(VarName(i), irs[i]))
  }

  function BodyOf(irs: Trace, result: Value): Value {
    if irs == [] then result else Block(LocalsOf(irs), result, NO_META)
  }

  /** `traced_computation`. */
  function Traced(p: Program): Value
    requires ProgramOk(p)
  {
    var (irs, results) := TraceSteps(p, |p.steps|);
    Lambda("arg", BodyOf(irs, OperandIr(p, results, p.result)), NO_META)
  }

  // ----- the reference meaning: the unshared nested call tree -----

  function OperandTree(p: Program, k: nat, o: Operand): Value
    requires ProgramOk(p) && k <= |p.steps| && OperandOk(p, k, o)
    decreases k, 0
  {
    match o
    case Param(i) => ParamIr(p, i)
    case Earlier(j) => StepTree(p, j)
    case Own(ir) => ir
  }

  function OperandTrees(p: Program, k: nat, os: seq<Operand>): (ts: seq<Value>)
    requires ProgramOk(p) && k <= |p.steps|
    requires forall i :: 0 <= i < |os| ==> OperandOk(p, k, os[i])
    ensures |ts| == |os|
    decreases k, 1
  {
    seq(|os|, i requires 0 <= i < |os| => OperandTree(p, k, os[i]))
  }

  function StepTree(p: Program, k: nat): Value
    requires ProgramOk(p) && k < |p.steps|
    decreases k, 2
  {
    assert StepOk(p, k, p.steps[k]);
    match p.steps[k]
    case CallStep(fn, args) => Call(OperandTree(p, k, fn), Some(Input(OperandTrees(p, k, args))), NO_META)
    case EmbedStep(value) => OperandTree(p, k, value)
  }

  function Tree(p: Program): Value
    requires ProgramOk(p)
  {
    OperandTree(p, |p.steps|, p.result)
  }
}
