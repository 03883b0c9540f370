/** What encoded chains and loops mean. */
module Encodings {
  import opened Common
  import opened Ir
  import opened Names
  import opened Evaluator
  import opened EvaluationRules
  import opened EvaluationExact
  import opened OperatorRules
  import opened Constructors

  // The values are those that genc/cc/authoring/constructor.cc and smart_chain.cc write. Each
  // lemma says what the function that such a value evaluates to gives for an argument.

  /** A value that names a handler answers as the rule of the handler says, unless its static
      parameter is refused. */
  lemma OperatorResponds(rt: Runtime, uri: string, op: Op, fixed: Option<Value>, s: Scope, x: XVal, r: Result<XVal>)
    requires rt.kind(uri) == ControlFlow(op)
    ensures Responds(rt, Intrinsic(uri, fixed, NO_META), s, x, r) <==>
              if WellFormed(op, fixed) then OperatorRule(rt, op, fixed, s, Some(x), r) else r == Err(InvalidArgument)
  {
    hide OperatorRule, WellFormed, Evaluates, Applies;
    var v, f := Intrinsic(uri, fixed, NO_META),
      if WellFormed(op, fixed) then Ok(Operator(op, fixed, s)) else Err(InvalidArgument);
    forall q
      ensures Evaluates(rt, v, s, q) <==> q == f
    {
      EvaluationFollowsRules(rt, v, s, q);
    }
    assert Evaluates(rt, v, s, f);
    if f.Ok? {
      ApplicationFollowsRules(rt, f.value, Some(x), r);
    }
    assert Responds(rt, v, s, x, r) <==> AppliesResult(rt, f, Some(x), r);
  }

  /** The functions `fns` as a chain holds them: in order, each under the label of its index. */
  ghost predicate Labels(fns: seq<Value>, cs: seq<Callee>) {
    && |cs| == |fns|
    && forall i :: 0 <= i < |fns| ==> cs[i] == Written(fns[i].(meta := fns[i].meta.(tag := "fn_" + Decimal(i))))
  }

  lemma LabelsOnly(fns: seq<Value>, cs: seq<Callee>)
    requires Labels(fns, cs)
    ensures AsWritten(Labelled(fns)) == cs
  {
    hide Decimal;
  }

  /** A serial chain hands its argument from function to function. */
  lemma SerialChainMeaning(rt: Runtime, fns: seq<Value>, cs: seq<Callee>, s: Scope, x: XVal, r: Result<XVal>)
    requires rt.kind("serial_chain") == ControlFlow(SerialChain) && Labels(fns, cs)
    ensures Responds(rt, SerialChainOf(fns), s, x, r) <==>
              if fns == [] then r == Err(InvalidArgument) else ChainRule(rt, Serial, cs, s, x, r)
  {
    hide ChainRule, Labelled, Labels, Responds;
    LabelsOnly(fns, cs);
    LabelledLength(fns);
    OperatorResponds(rt, SERIAL_CHAIN_URI, SerialChain, SerialChainOf(fns).fixed, s, x, r);
  }

  lemma LabelledLength(fns: seq<Value>)
    ensures |Labelled(fns)| == |fns|
  {
  }

  /** A breakable chain does so until some function answers true, past those that answer false. */
  lemma BreakableChainMeaning(rt: Runtime, fns: seq<Value>, cs: seq<Callee>, s: Scope, x: XVal, r: Result<XVal>)
    requires rt.kind("breakable_chain") == ControlFlow(BreakableChain) && Labels(fns, cs)
    ensures Responds(rt, BreakableChainOf(fns), s, x, r) <==>
              if fns == [] then r == Err(InvalidArgument) else ChainRule(rt, Breakable, cs, s, x, r)
  {
    hide ChainRule, Labelled, Labels, Responds;
    LabelsOnly(fns, cs);
    LabelledLength(fns);
    OperatorResponds(rt, BREAKABLE_CHAIN_URI, BreakableChain, BreakableChainOf(fns).fixed, s, x, r);
  }

  /** A repeated chain makes its functions once and goes through them `k` times, until some
      function answers true. */
  lemma RepeatedChainMeaning(rt: Runtime, k: int32, fns: seq<Value>, ws: seq<Value>, s: Scope, x: XVal, r: Result<XVal>)
    requires rt.kind("repeated_conditional_chain") == ControlFlow(RepeatedConditionalChain) && Labels(fns, AsWritten(ws))
    ensures Responds(rt, RepeatedChainOf(k, fns), s, x, r) <==>
              if fns == [] then r == Err(InvalidArgument)
              else exists fs :: InOrder(rt, Made, ws, s, fs) && ManyRounds(rt, k, fs, s, x, r)
  {
    hide ChainRule, Labelled, Labels, Responds, InOrder, Copies;
    LabelledLength(fns);
    LabelledAre(fns, ws);
    var fixed := RepeatedChainOf(k, fns).fixed;
    OperatorResponds(rt, REPEATED_CHAIN_URI, RepeatedConditionalChain, fixed, s, x, r);
    var params := [CreateInt32("num_steps", k)] + Labelled(fns);
    assert fixed.value.elements == params && params[1..] == ws && CountOf(params[0]) == k;
    assert forall fs :: RoundsRule(rt, params[0], fs, s, Some(x), r) <==> ManyRounds(rt, k, fs, s, x, r);
  }

  ghost predicate ManyRounds(rt: Runtime, k: int, fs: Result<seq<XVal>>, s: Scope, x: XVal, r: Result<XVal>) {
    match fs
    case Err(c) => r == Err(c)
    case Ok(gs) => ChainRule(rt, Rounds, Copies(k, AsHeld(gs)), s, x, r)
  }

  lemma LabelledAre(fns: seq<Value>, ws: seq<Value>)
    requires Labels(fns, AsWritten(ws))
    ensures Labelled(fns) == ws
  {
    hide Decimal;
    LabelsOnly(fns, AsWritten(ws));
    forall i | 0 <= i < |fns|
      ensures Labelled(fns)[i] == ws[i]
    {
      assert AsWritten(Labelled(fns))[i] == AsWritten(ws)[i];
    }
  }

  /** `Repeat` applies its body `k` times, and not at all for a negative `k`. */
  lemma RepeatMeaning(rt: Runtime, k: int32, b: Value, body: Value, s: Scope, x: XVal, r: Result<XVal>)
    requires rt.kind("repeat") == ControlFlow(Repeat) && body == b.(meta := b.meta.(tag := "body_fn"))
    ensures Responds(rt, CreateRepeat(k, b), s, x, r) <==> exists f :: Makes(rt, body, s, f) && ManyTimes(rt, k, f, s, x, r)
  {
    hide ChainRule, Responds, Makes, Copies;
    var fixed, count := CreateRepeat(k, b).fixed, CreateInt32("num_steps", k);
    OperatorResponds(rt, REPEAT_URI, Repeat, fixed, s, x, r);
    assert fixed.value.elements[0] == count && fixed.value.elements[1] == body && WellFormed(Repeat, fixed);
    assert CountOf(count) == k;
    assert forall f :: RepeatRule(rt, count, f, s, Some(x), r) <==> ManyTimes(rt, k, f, s, x, r);
  }

  ghost predicate ManyTimes(rt: Runtime, k: int, f: Result<XVal>, s: Scope, x: XVal, r: Result<XVal>) {
    match f
    case Err(c) => r == Err(c)
    case Ok(g) => ChainRule(rt, Serial, Copies(k, [Held(g)]), s, x, r)
  }

  /** `While` applies its body for as long as the condition answers true. */
  lemma WhileMeaning(rt: Runtime, c: Value, b: Value, condition: Value, body: Value, s: Scope, x: XVal, r: Result<XVal>)
    requires rt.kind("while") == ControlFlow(While)
    requires condition == c.(meta := c.meta.(tag := "condition_fn")) && body == b.(meta := b.meta.(tag := "body_fn"))
    ensures Responds(rt, CreateWhile(c, b), s, x, r) <==>
              exists f :: Makes(rt, condition, s, f) && WhileRule(rt, f, body, s, Some(x), r)
  {
    hide WhileRule, Responds, Makes;
    var fixed := CreateWhile(c, b).fixed;
    OperatorResponds(rt, WHILE_URI, While, fixed, s, x, r);
    assert fixed.value.elements[0] == condition && fixed.value.elements[1] == body && WellFormed(While, fixed);
  }

  /** A parallel map calls the function on the members of the payload. */
  lemma ParallelMapResponds(rt: Runtime, fn: Value, s: Scope, x: XVal, r: Result<XVal>)
    requires rt.kind("parallel_map") == ControlFlow(ParallelMap)
    ensures Responds(rt, CreateParallelMap(fn), s, x, r) <==> MapRule(rt, fn, s, Materialize(x), r)
  {
    hide MapRule, Responds, Materialize;
    OperatorResponds(rt, PARALLEL_MAP_URI, ParallelMap, CreateParallelMap(fn).fixed, s, x, r);
  }

  /** A fallback tries its candidates in order. */
  lemma FallbackMeaning(rt: Runtime, fns: seq<Value>, vs: seq<Value>, s: Scope, x: XVal, r: Result<XVal>)
    requires rt.kind("fallback") == ControlFlow(Fallback) && |vs| == |fns|
    requires forall i :: 0 <= i < |fns| ==> vs[i] == fns[i].(meta := fns[i].meta.(tag := "candidate_fn"))
    ensures Responds(rt, FallbackOf(fns), s, x, r) <==> FallbackRule(rt, vs, s, Some(x), Unavailable, r)
  {
    hide FallbackRule, Responds;
    assert Candidates(fns) == vs;
    OperatorResponds(rt, FALLBACK_URI, Fallback, FallbackOf(fns).fixed, s, x, r);
  }

  /** What `SmartChain` builds: the repeated chain for more than one iteration, otherwise the
      serial chain. */
  lemma SmartChainMeaning(rt: Runtime, k: int32, ops: seq<Value>, ws: seq<Value>, s: Scope, x: XVal, r: Result<XVal>)
    requires rt.kind("repeated_conditional_chain") == ControlFlow(RepeatedConditionalChain)
    requires rt.kind("serial_chain") == ControlFlow(SerialChain) && Labels(ops, AsWritten(ws)) && ops != []
    ensures Responds(rt, SmartChainOf(ops, k, false), s, x, r) <==>
              if k > 1 then exists fs :: InOrder(rt, Made, ws, s, fs) && ManyRounds(rt, k, fs, s, x, r)
              else ChainRule(rt, Serial, AsWritten(ws), s, x, r)
  {
    hide ChainRule, Responds, InOrder, ManyRounds;
    if k > 1 {
      RepeatedChainMeaning(rt, k, ops, ws, s, x, r);
    } else {
      SerialChainMeaning(rt, ops, AsWritten(ws), s, x, r);
    }
  }

  /** On request, that chain is called on each member of the payload. */
  lemma ParallelSmartChain(rt: Runtime, k: int32, ops: seq<Value>, s: Scope, x: XVal, r: Result<XVal>)
    requires rt.kind("parallel_map") == ControlFlow(ParallelMap)
    ensures Responds(rt, SmartChainOf(ops, k, true), s, x, r) <==> MapRule(rt, SmartChainOf(ops, k, false), s, Materialize(x), r)
  {
    ParallelMapResponds(rt, SmartChainOf(ops, k, false), s, x, r);
  }
}
