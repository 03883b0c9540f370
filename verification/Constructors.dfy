/** genc/cc/authoring/constructor.cc: how chains, loops and conditionals are written in the
    IR, and genc/cc/authoring/smart_chain.cc on top of them. */
module Constructors {
  import opened Common
  import opened Ir
  import opened Names

  const BREAKABLE_CHAIN_URI := "breakable_chain"
  const CONDITIONAL_URI := "conditional"
  const FALLBACK_URI := "fallback"
  const PARALLEL_MAP_URI := "parallel_map"
  const REPEAT_URI := "repeat"
  const REPEATED_CHAIN_URI := "repeated_conditional_chain"
  const SERIAL_CHAIN_URI := "serial_chain"
  const WHILE_URI := "while"

  function CreateReference(name: string): Value { Ref(name, NO_META) }

  function CreateCall(fn: Value, arg: Value): Value { Call(fn, Some(arg), NO_META) }

  function CreateLambda(name: string, body: Value): Value { Lambda(name, body, NO_META) }

  function CreateIntrinsic(uri: string, fixed: Value): Value { Intrinsic(uri, Some(fixed), NO_META) }

  function CreateInt32(tag: string, i: int32): Value { WithLabel(tag, Leaf(Int32(i), NO_META)) }

  function CreateConditional(condition: Value, positive: Value, negative: Value): Value {
    CreateCall(CreateIntrinsic(CONDITIONAL_URI, Struct([WithLabel("then", positive), WithLabel("else", negative)], NO_META)),
               condition)
  }

  function CreateLambdaForConditional(condition: Value, positive: Value, negative: Value): Value {
    var arg := CreateReference("arg");
    CreateLambda("arg", CreateConditional(CreateCall(condition, arg), CreateCall(positive, arg), CreateCall(negative, arg)))
  }

  function CreateRepeat(numSteps: int32, body: Value): Value {
    CreateIntrinsic(REPEAT_URI, Struct([CreateInt32("num_steps", numSteps), WithLabel("body_fn", body)], NO_META))
  }

  function CreateWhile(condition: Value, body: Value): Value {
    CreateIntrinsic(WHILE_URI, Struct([WithLabel("condition_fn", condition), WithLabel("body_fn", body)], NO_META))
  }

  function CreateParallelMap(fn: Value): Value { CreateIntrinsic(PARALLEL_MAP_URI, fn) }

  /** The functions of a chain, labelled `fn_0`, `fn_1`, ... */
  function Labelled(fns: seq<Value>): seq<Value> {
    seq(|fns|, i requires 0 <= i < |fns| => WithLabel("fn_" + Decimal(i), fns[i]))
  }

  method LabelFns(args: seq<Value>, fns: seq<Value>) returns (r: seq<Value>)
    ensures r == args + Labelled(fns)
  {
    hide WithLabel, Decimal;
    r := args;
    for i := 0 to |fns|
      invariant r == args + Labelled(fns)[..i]
    {
      r := r + [WithLabel("fn_" + Decimal(i), fns[i])];
    }
  }

  function SerialChainOf(fns: seq<Value>): Value {
    CreateIntrinsic(SERIAL_CHAIN_URI, Struct(Labelled(fns), NO_META))
  }

  function RepeatedChainOf(numSteps: int32, fns: seq<Value>): Value {
    CreateIntrinsic(REPEATED_CHAIN_URI, Struct([CreateInt32("num_steps", numSteps)] + Labelled(fns), NO_META))
  }

  function BreakableChainOf(fns: seq<Value>): Value {
    CreateIntrinsic(BREAKABLE_CHAIN_URI, Struct(Labelled(fns), NO_META))
  }

  method CreateBreakableChain(fns: seq<Value>) returns (r: Value)
    ensures r == BreakableChainOf(fns)
  {
    var elements := LabelFns([], fns);
    assert elements == Labelled(fns);
    r := CreateIntrinsic(BREAKABLE_CHAIN_URI, Struct(elements, NO_META));
  }

  method CreateSerialChain(fns: seq<Value>) returns (r: Value)
    ensures r == SerialChainOf(fns)
  {
    var elements := LabelFns([], fns);
    assert elements == Labelled(fns);
    r := CreateIntrinsic(SERIAL_CHAIN_URI, Struct(elements, NO_META));
  }

  method CreateRepeatedConditionalChain(numSteps: int32, fns: seq<Value>) returns (r: Value)
    ensures r == RepeatedChainOf(numSteps, fns)
  {
    var elements := LabelFns([CreateInt32("num_steps", numSteps)], fns);
    r := CreateIntrinsic(REPEATED_CHAIN_URI, Struct(elements, NO_META));
  }

  function Candidates(fns: seq<Value>): seq<Value> {
    seq(|fns|, i requires 0 <= i < |fns| => WithLabel("candidate_fn", fns[i]))
  }

  function FallbackOf(fns: seq<Value>): Value {
    CreateIntrinsic(FALLBACK_URI, Struct(Candidates(fns), NO_META))
  }

  method CreateFallback(fns: seq<Value>) returns (r: Value)
    ensures r == FallbackOf(fns)
  {
    var elements: seq<Value> := [];
    for i := 0 to |fns|
      invariant elements == Candidates(fns[..i])
    {
      elements := elements + [WithLabel("candidate_fn", fns[i])];
    }
    assert fns[..|fns|] == fns;
    r := CreateIntrinsic(FALLBACK_URI, Struct(elements, NO_META));
  }

  /** The builder picks the loop when more than one iteration is asked for. */
  function SmartChainOf(ops: seq<Value>, numIteration: int32, isParallel: bool): Value {
    var chain := if numIteration > 1 then RepeatedChainOf(numIteration, ops) else SerialChainOf(ops);
    if isParallel then CreateParallelMap(chain) else chain
  }

  class SmartChain {
    var isParallel: bool
    var numIteration: int32
    var chainedOps: seq<Value>

    constructor ()
      ensures !isParallel && numIteration == 0 && chainedOps == []
    {
      isParallel, numIteration, chainedOps := false, 0, [];
    }

    method Pipe(op: Value)
      modifies this
      ensures chainedOps == old(chainedOps) + [op] && numIteration == old(numIteration) && isParallel == old(isParallel)
    {
      chainedOps := chainedOps + [op];
    }

    method SetNumIteration(i: int32)
      modifies this
      ensures numIteration == i && chainedOps == old(chainedOps) && isParallel == old(isParallel)
    {
      numIteration := i;
    }

    method SetIsParallel(parallel: bool)
      modifies this
      ensures isParallel == parallel && chainedOps == old(chainedOps) && numIteration == old(numIteration)
    {
      isParallel := parallel;
    }

    method Build() returns (chain: Value)
      ensures chain == SmartChainOf(chainedOps, numIteration, isParallel)
    {
      if numIteration > 1 {
        chain := CreateRepeatedConditionalChain(numIteration, chainedOps);
      } else {
        chain := CreateSerialChain(chainedOps);
      }
      if isParallel {
        chain := CreateParallelMap(chain);
      }
    }
  }
}
