/** Chains of inline functions that return plain data: the forms of the chain agree. */
module InlineChains {
  import opened Common
  import opened Ir
  import opened Evaluator
  import opened Fuel
  import opened RoundTrip
  import opened Constructors
  import opened Chains

  // The conditions are on the code and on the handlers it names, so they can be checked
  // before anything is evaluated.

  /** A well-formed inline intrinsic. */
  predicate InlineFn(rt: Runtime, v: Value) {
    v.Intrinsic? && rt.kind(v.uri).Inline? && rt.checkInline(v.uri, v.fixed) == None
  }

  predicate InlineFns(rt: Runtime, fns: seq<Value>) {
    forall i :: 0 <= i < |fns| ==> InlineFn(rt, fns[i])
  }

  /** Data that a chain hands on unchanged: nothing is recorded on structs, which the repeated
      chain would drop, and there is a payload, which it needs to create the state again. */
  predicate Carried(d: Value) {
    IsData(d) && Plain(d) && !d.NotSet?
  }

  ghost predicate AnswersCarried(rt: Runtime, fns: seq<Value>) {
    forall i, d :: 0 <= i < |fns| && fns[i].Intrinsic? && rt.inline(fns[i].uri, fns[i].fixed, d).Ok?
      ==> Carried(rt.inline(fns[i].uri, fns[i].fixed, d).value)
  }

  /** No answer is a Boolean, which would steer a chain that can break. */
  ghost predicate AnswersSteerNothing(rt: Runtime, fns: seq<Value>) {
    forall i, d :: 0 <= i < |fns| && fns[i].Intrinsic? && rt.inline(fns[i].uri, fns[i].fixed, d).Ok?
      ==> !IsBoolean(rt.inline(fns[i].uri, fns[i].fixed, d).value)
  }

  /** The answer of the handler that `fn` names, for a payload. */
  function Handled(rt: Runtime, fn: Value, d: Result<Value>): Result<Value> {
    match (d, fn)
    case (Err(c), _) => Err(c)
    case (Ok(v), Intrinsic(uri, fixed, _)) => rt.inline(uri, fixed, v)
    case _ => Err(InvalidArgument)
  }

  /** The payload of the state in which a chain that can break leaves the functions, and
      whether an error or a true answer has ended it. */
  function Steps(rt: Runtime, fns: seq<Value>, d: Result<Value>): (Result<Value>, bool) {
    if fns == [] then (d, false)
    else
      var y := Handled(rt, fns[0], d);
      if y.Err? then (y, true)
      else if !IsBoolean(y.value) then Steps(rt, fns[1..], y)
      else if BooleanOf(y.value) then (d, true)
      else Steps(rt, fns[1..], d)
  }

  /** Chains compose: the second part runs from where the first part did not end. */
  lemma {:induction false} StepsAppend(rt: Runtime, a: seq<Value>, b: seq<Value>, d: Result<Value>)
    ensures var (y, ended) := Steps(rt, a, d);
            Steps(rt, a + b, d) == if ended then (y, true) else Steps(rt, b, y)
  {
    hide Handled, IsBoolean, BooleanOf;
    if a == [] {
      assert a + b == b;
    } else {
      assert (a + b)[0] == a[0] && (a + b)[1..] == a[1..] + b;
      var y := Handled(rt, a[0], d);
      if y.Ok? {
        StepsAppend(rt, a[1..], b, if IsBoolean(y.value) then d else y);
      }
    }
  }

  /** The payload that the functions, one after the other, make of a payload. */
  function Through(rt: Runtime, fns: seq<Value>, d: Result<Value>): Result<Value> {
    if fns == [] then d else Through(rt, fns[1..], Handled(rt, fns[0], d))
  }

  lemma {:induction false} ThroughError(rt: Runtime, fns: seq<Value>, c: Code)
    ensures Through(rt, fns, Err(c)) == Err(c)
  {
    if fns != [] {
      ThroughError(rt, fns[1..], c);
    }
  }

  lemma {:induction false} StepsThrough(rt: Runtime, fns: seq<Value>, e: Result<Value>)
    requires InlineFns(rt, fns) && AnswersSteerNothing(rt, fns)
    ensures Steps(rt, fns, e).0 == Through(rt, fns, e)
  {
    hide InlineFn, CheckWellFormed;
    if fns != [] {
      TailInline(rt, fns);
      var y := Handled(rt, fns[0], e);
      if y.Err? {
        ThroughError(rt, fns[1..], y.code);
      } else {
        assert rt.inline(fns[0].uri, fns[0].fixed, e.value).Ok?;
        StepsThrough(rt, fns[1..], y);
      }
    }
  }

  /** What materialising the value of an outcome gives. */
  function Payload(o: Outcome<XVal>): Outcome<Value> {
    var y :- o;
    Done(Materialize(y))
  }

  // ----- one call -----

  lemma {:induction false} InlineCall(rt: Runtime, n: nat, fn: Value, x: XVal, e: Result<Value>, s: Scope)
    requires n > 0 && InlineFn(rt, fn) && Embed(x) == Ok(e)
    ensures Create(rt, n, fn, s) == Done(Ok(Embedded(Ok(fn))))
    ensures Apply(rt, n, Embedded(Ok(fn)), Some(x)) == Done(Ok(Embedded(Handled(rt, fn, e))))
    ensures Ask(rt, n, Embedded(Ok(fn)), Some(x)) ==
      match Handled(rt, fn, e)
      case Err(c) => Done(Err(c))
      case Ok(d) => Done(Ok((Embedded(Ok(d)), d)))
  {
  }

  lemma TailInline(rt: Runtime, fns: seq<Value>)
    requires fns != [] && InlineFns(rt, fns)
    ensures InlineFn(rt, fns[0]) && InlineFns(rt, fns[1..])
    ensures AnswersCarried(rt, fns) ==> AnswersCarried(rt, fns[1..])
    ensures AnswersSteerNothing(rt, fns) ==> AnswersSteerNothing(rt, fns[1..])
  {
    hide InlineFn, Carried, IsBoolean;
  }

  lemma FirstCarried(rt: Runtime, fns: seq<Value>, e: Result<Value>)
    requires fns != [] && AnswersCarried(rt, fns) && Handled(rt, fns[0], e).Ok?
    ensures e.Ok? && Carried(Handled(rt, fns[0], e).value)
  {
    hide Carried;
  }

  // ----- each form of the chain -----

  lemma {:induction false} SerialThrough(rt: Runtime, n: nat, fns: seq<Value>, x: XVal, e: Result<Value>, s: Scope)
    requires n > 0 && InlineFns(rt, fns) && Embed(x) == Ok(e)
    ensures Payload(SerialFrom(rt, n, fns, x, s)) == Done(Through(rt, fns, e))
    decreases |fns|
  {
    hide Create, Apply, Handled;
    if fns != [] {
      InlineCall(rt, n, fns[0], x, e, s);
      SerialThrough(rt, n, fns[1..], Embedded(Handled(rt, fns[0], e)), Handled(rt, fns[0], e), s);
    }
  }

  lemma {:induction false} BreakableSteps(rt: Runtime, n: nat, fns: seq<Value>, x: XVal, e: Result<Value>, s: Scope)
    requires n > 0 && InlineFns(rt, fns) && Embed(x) == Ok(e)
    ensures Payload(BreakableFrom(rt, n, fns, x, s)) == Done(Steps(rt, fns, e).0)
    decreases |fns|
  {
    hide Create, Ask, Handled, InlineFn;
    if fns != [] {
      TailInline(rt, fns);
      InlineCall(rt, n, fns[0], x, e, s);
      var y := Handled(rt, fns[0], e);
      if y.Ok? {
        if IsBoolean(y.value) {
          BreakableSteps(rt, n, fns[1..], x, e, s);
        } else {
          BreakableSteps(rt, n, fns[1..], Embedded(y), y, s);
        }
      }
    }
  }

  /** The functions as the repeated chain holds them. */
  function Held(fns: seq<Value>): seq<XVal> {
    seq(|fns|, i requires 0 <= i < |fns| => Embedded(Ok(fns[i])))
  }

  /** What a pass leaves: the state, or the error of a function. */
  ghost predicate PassGives(o: Outcome<(XVal, bool)>, e: Result<Value>, ended: bool) {
    match o
    case OutOfFuel => false
    case Done(Err(c)) => ended && e == Err(c)
    case Done(Ok((z, broke))) => broke == ended && Embed(z) == Ok(e)
  }

  /** The state that is created again from the payload has that payload. */
  lemma StateAgain(rt: Runtime, d: Value, s: Scope) returns (n: nat)
    requires Carried(d)
    ensures n > 0 && Create(rt, n, d, s) == Done(Ok(LocalForm(d))) && Embed(LocalForm(d)) == Ok(Ok(d))
  {
    n := EvalData(rt, d, s);
    assert n > 0;
    MaterializeLocalForm(d);
    NormIdempotent(d);
  }

  lemma {:induction false} RoundSteps(rt: Runtime, fns: seq<Value>, x: XVal, e: Result<Value>, s: Scope) returns (n: nat)
    requires InlineFns(rt, fns) && AnswersCarried(rt, fns) && Embed(x) == Ok(e)
    ensures n > 0 && PassGives(Round(rt, n, Held(fns), x, s), Steps(rt, fns, e).0, Steps(rt, fns, e).1)
    decreases |fns|
  {
    hide Create, Ask, Apply, Handled, AnswersCarried, Carried, Embed, InlineFn;
    n := 1;
    if fns != [] {
      TailInline(rt, fns);
      assert Held(fns)[0] == Embedded(Ok(fns[0])) && Held(fns)[1..] == Held(fns[1..]);
      var y := Handled(rt, fns[0], e);
      if y.Ok? && IsBoolean(y.value) && !BooleanOf(y.value) {
        n := RoundSteps(rt, fns[1..], x, e, s);
      } else if y.Ok? && !IsBoolean(y.value) {
        FirstCarried(rt, fns, e);
        var i := StateAgain(rt, y.value, s);
        var j := RoundSteps(rt, fns[1..], LocalForm(y.value), y, s);
        n := if i < j then j else i;
        CreateMono(rt, i, n, y.value, s);
        RoundMono(rt, j, n, Held(fns[1..]), LocalForm(y.value), s);
      }
      InlineCall(rt, n, fns[0], x, e, s);
    }
  }

  lemma {:induction false} RoundsSteps(rt: Runtime, k: int, fns: seq<Value>, x: XVal, e: Result<Value>, s: Scope) returns (n: nat)
    requires InlineFns(rt, fns) && AnswersCarried(rt, fns) && Embed(x) == Ok(e)
    ensures n > 0 && Payload(RoundsFrom(rt, n, k, Held(fns), x, s)) == Done(Steps(rt, Flatten(k, fns), e).0)
    decreases if k < 0 then 0 else k
  {
    hide InlineFns, AnswersCarried, Round;
    if k <= 0 {
      n := 1;
    } else {
      n := RoundSteps(rt, fns, x, e, s);
      StepsAppend(rt, fns, Flatten(k - 1, fns), e);
      var o := Round(rt, n, Held(fns), x, s);
      if o.IsOk() && !o.result.value.1 {
        var i := n;
        var j := RoundsSteps(rt, k - 1, fns, o.result.value.0, Steps(rt, fns, e).0, s);
        n := if i < j then j else i;
        RoundMono(rt, i, n, Held(fns), x, s);
        RoundsMono(rt, j, n, k - 1, Held(fns), o.result.value.0, s);
      }
    }
  }

  lemma {:induction false} InlineAll(rt: Runtime, n: nat, fns: seq<Value>, s: Scope)
    requires n > 0 && InlineFns(rt, fns)
    ensures CreateAll(rt, n, fns, s) == Done(Ok(Held(fns)))
    decreases |fns|
  {
    hide Create;
    if fns == [] {
      assert Held(fns) == [];
    } else {
      InlineCall(rt, n, fns[0], Embedded(Ok(fns[0])), Ok(fns[0]), s);
      InlineAll(rt, n, fns[1..], s);
      assert Held(fns) == [Embedded(Ok(fns[0]))] + Held(fns[1..]);
    }
  }

  lemma {:induction false} FlattenInline(rt: Runtime, k: int, fns: seq<Value>)
    requires InlineFns(rt, fns)
    ensures InlineFns(rt, Flatten(k, fns))
    ensures AnswersSteerNothing(rt, fns) ==> AnswersSteerNothing(rt, Flatten(k, fns))
    decreases if k < 0 then 0 else k
  {
    hide InlineFn, IsBoolean;
    if k > 0 {
      FlattenInline(rt, k - 1, fns);
    }
  }

  // ----- the forms agree -----

  /** The repeated chain and the breakable chain written out, breaks included: for some bound
      both have finished, with the same payload or the same error, which is that of the state
      in which the functions, one after the other, leave the chain. */
  lemma BreakingChainsAgree(rt: Runtime, k: int, fns: seq<Value>, x: XVal, e: Result<Value>, s: Scope) returns (n: nat)
    requires InlineFns(rt, fns) && AnswersCarried(rt, fns) && Embed(x) == Ok(e)
    ensures n > 0
    ensures Payload(RoundsFrom(rt, n, k, Held(fns), x, s)) == Done(Steps(rt, Flatten(k, fns), e).0)
    ensures Payload(BreakableFrom(rt, n, Flatten(k, fns), x, s)) == Done(Steps(rt, Flatten(k, fns), e).0)
  {
    n := RoundsSteps(rt, k, fns, x, e, s);
    FlattenInline(rt, k, fns);
    BreakableSteps(rt, n, Flatten(k, fns), x, e, s);
  }

  /** When no answer is a Boolean, the serial chain written out gives the same as well. */
  lemma InlineChainsAgree(rt: Runtime, k: int, fns: seq<Value>, x: XVal, e: Result<Value>, s: Scope) returns (n: nat)
    requires InlineFns(rt, fns) && AnswersCarried(rt, fns) && AnswersSteerNothing(rt, fns) && Embed(x) == Ok(e)
    ensures n > 0
    ensures Payload(RoundsFrom(rt, n, k, Held(fns), x, s)) == Done(Through(rt, Flatten(k, fns), e))
    ensures Payload(BreakableFrom(rt, n, Flatten(k, fns), x, s)) == Done(Through(rt, Flatten(k, fns), e))
    ensures Payload(SerialFrom(rt, n, Flatten(k, fns), x, s)) == Done(Through(rt, Flatten(k, fns), e))
  {
    n := BreakingChainsAgree(rt, k, fns, x, e, s);
    FlattenInline(rt, k, fns);
    StepsThrough(rt, Flatten(k, fns), e);
    SerialThrough(rt, n, Flatten(k, fns), x, e, s);
  }

  /** The two forms that `SmartChain` chooses between, for inline functions: the loop, and the
      serial chain repeated, finish with the same payload or the same error. */
  lemma SmartChainAgrees(rt: Runtime, k: int32, ops: seq<Value>, x: XVal, e: Result<Value>, s: Scope) returns (n: nat)
    requires k > 1 && InlineFns(rt, ops) && AnswersCarried(rt, ops) && AnswersSteerNothing(rt, ops) && Embed(x) == Ok(e)
    ensures var loop, serial := SmartChainOf(ops, k, false).fixed, SmartChainOf(ops, 1, false).fixed;
            var payload := Through(rt, Flatten(k, Labelled(ops)), e);
            && Payload(Exec(rt, n, RepeatedConditionalChain, loop, Some(x), s)) == Done(payload)
            && Payload(RepeatFrom(rt, n + 1, Operator(SerialChain, serial, s), k, x)) == Done(payload)
  {
    var fns := Labelled(ops);
    LabelledInline(rt, ops);
    n := InlineChainsAgree(rt, k, fns, x, e, s);
    var loop := SmartChainOf(ops, k, false).fixed;
    LoopOf(ops, k);
    InlineAll(rt, n, fns, s);
    hide CreateAll, RoundsFrom, SerialFrom, Labelled;
    assert Exec(rt, n, RepeatedConditionalChain, loop, Some(x), s) == RoundsFrom(rt, n, k, Held(fns), x, s);
    var o := SerialFrom(rt, n, Flatten(k, fns), x, s);
    FlatThenRepeat(rt, n, SmartChainOf(ops, 1, false).fixed, k, x, s, o.result);
  }

  lemma LoopOf(ops: seq<Value>, k: int32)
    requires k > 1
    ensures var loop := SmartChainOf(ops, k, false).fixed;
            && FixedElements(loop) != [] && FixedElements(loop)[1..] == Labelled(ops)
            && Int32Of(FixedAt(loop, 0)) == k
    ensures FixedElements(SmartChainOf(ops, 1, false).fixed) == Labelled(ops)
  {
    assert FixedElements(SmartChainOf(ops, k, false).fixed) == [CreateInt32("num_steps", k)] + Labelled(ops);
  }

  lemma LabelledInline(rt: Runtime, ops: seq<Value>)
    requires InlineFns(rt, ops)
    ensures InlineFns(rt, Labelled(ops))
    ensures AnswersCarried(rt, ops) ==> AnswersCarried(rt, Labelled(ops))
    ensures AnswersSteerNothing(rt, ops) ==> AnswersSteerNothing(rt, Labelled(ops))
  {
    hide Carried, IsBoolean;
    forall i | 0 <= i < |ops|
      ensures Labelled(ops)[i].Intrinsic? && Labelled(ops)[i].uri == ops[i].uri && Labelled(ops)[i].fixed == ops[i].fixed
    {
      assert InlineFn(rt, ops[i]);
    }
  }
}
