/** What a whole run means, without a bound. */
module RunMeaning {
  import opened Common
  import opened Ir
  import opened Evaluator
  import opened Fuel
  import opened EvaluationRules
  import opened EvaluationExact
  import opened OperatorRules
  import opened RoundTrip
  import opened ExecutorValues
  import opened Runners

  /** The computation and its argument are created at the top, and the payload of the call is
      the result; the first error ends the run. */
  ghost predicate RunRule(rt: Runtime, computation: Value, arg: Value, r: Result<Value>) {
    exists f :: Makes(rt, computation, Root, f) && if f.Err? then r == Err(f.code) else CalledOn(rt, f.value, arg, r)
  }

  ghost predicate CalledOn(rt: Runtime, f: XVal, arg: Value, r: Result<Value>) {
    exists x :: Makes(rt, arg, Root, x) && if x.Err? then r == Err(x.code) else PayloadOfCall(rt, f, x.value, r)
  }

  ghost predicate PayloadOfCall(rt: Runtime, f: XVal, x: XVal, r: Result<Value>) {
    exists y :: Applies(rt, f, Some(x), y) && r == if y.Err? then Err(y.code) else Materialize(y.value)
  }

  lemma {:induction false} PayloadSound(rt: Runtime, n: nat, f: XVal, x: XVal)
    requires Ask(rt, n, f, Some(x)).Done?
    ensures PayloadOfCall(rt, f, x, Answer(Ask(rt, n, f, Some(x))).result)
  {
    hide Apply, Materialize;
    var y := Apply(rt, n, f, Some(x)).result;
    assert Apply(rt, n, f, Some(x)) == Done(y);
    assert Applies(rt, f, Some(x), y);
  }

  lemma PayloadFuel(rt: Runtime, f: XVal, x: XVal, r: Result<Value>) returns (n: nat)
    requires PayloadOfCall(rt, f, x, r)
    ensures Answer(Ask(rt, n, f, Some(x))) == Done(r)
  {
    hide Apply, Materialize;
    var y :| Applies(rt, f, Some(x), y) && r == if y.Err? then Err(y.code) else Materialize(y.value);
    n :| Apply(rt, n, f, Some(x)) == Done(y);
  }

  lemma CallSound(rt: Runtime, n: nat, f: XVal, arg: Value)
    requires CallOutcome(rt, n, f, arg).Done?
    ensures CalledOn(rt, f, arg, CallOutcome(rt, n, f, arg).result)
  {
    hide Create, Ask, Makes, PayloadOfCall;
    MakesSound(rt, n, arg, Root);
    var x := Create(rt, n, arg, Root).result;
    if x.Ok? {
      PayloadSound(rt, n, f, x.value);
    }
    assert Makes(rt, arg, Root, x);
  }

  lemma CallFuel(rt: Runtime, f: XVal, arg: Value, r: Result<Value>) returns (n: nat)
    requires CalledOn(rt, f, arg, r)
    ensures CallOutcome(rt, n, f, arg) == Done(r)
  {
    hide Create, Ask, Makes, PayloadOfCall;
    var x :| Makes(rt, arg, Root, x) && if x.Err? then r == Err(x.code) else PayloadOfCall(rt, f, x.value, r);
    n := MakesFuel(rt, arg, Root, x);
    if x.Ok? {
      var i := n;
      var j := PayloadFuel(rt, f, x.value, r);
      n := Larger(i, j);
      CreateMono(rt, i, n, arg, Root);
      AskMono(rt, j, n, f, Some(x.value));
    }
  }

  lemma {:induction false} CallMono(rt: Runtime, n: nat, m: nat, f: XVal, arg: Value)
    requires n <= m && CallOutcome(rt, n, f, arg).Done?
    ensures CallOutcome(rt, m, f, arg) == CallOutcome(rt, n, f, arg)
  {
    hide Create, Ask;
    CreateMono(rt, n, m, arg, Root);
    var x := Create(rt, n, arg, Root);
    if x.IsOk() {
      AskMono(rt, n, m, f, Some(x.result.value));
    }
  }

  lemma RunSound(rt: Runtime, n: nat, computation: Value, arg: Value)
    requires RunOutcome(rt, n, computation, arg).Done?
    ensures RunRule(rt, computation, arg, RunOutcome(rt, n, computation, arg).result)
  {
    hide Create, CallOutcome, Makes, CalledOn;
    MakesSound(rt, n, computation, Root);
    var f := Create(rt, n, computation, Root).result;
    if f.Ok? {
      CallSound(rt, n, f.value, arg);
    }
    assert Makes(rt, computation, Root, f);
  }

  lemma RunFuel(rt: Runtime, computation: Value, arg: Value, r: Result<Value>) returns (n: nat)
    requires RunRule(rt, computation, arg, r)
    ensures RunOutcome(rt, n, computation, arg) == Done(r)
  {
    hide Create, CallOutcome, Makes, CalledOn;
    var f :| Makes(rt, computation, Root, f) && if f.Err? then r == Err(f.code) else CalledOn(rt, f.value, arg, r);
    n := MakesFuel(rt, computation, Root, f);
    if f.Ok? {
      var i := n;
      var j := CallFuel(rt, f.value, arg, r);
      n := Larger(i, j);
      CreateMono(rt, i, n, computation, Root);
      CallMono(rt, j, n, f.value, arg);
    }
  }

  /** A run has a result exactly when the rule gives it. */
  lemma RunFollowsRule(rt: Runtime, computation: Value, arg: Value, r: Result<Value>)
    ensures (exists n: nat :: RunOutcome(rt, n, computation, arg) == Done(r)) <==> RunRule(rt, computation, arg, r)
  {
    hide RunOutcome, RunRule;
    if n: nat :| RunOutcome(rt, n, computation, arg) == Done(r) {
      RunSound(rt, n, computation, arg);
    }
    if RunRule(rt, computation, arg, r) {
      var n := RunFuel(rt, computation, arg, r);
    }
  }

  /** Data made at the top is its local form. */
  lemma {:induction false} DataMakes(rt: Runtime, d: Value, r: Result<XVal>)
    requires IsData(d) && !d.NotSet?
    ensures Makes(rt, d, Root, r) <==> r == Ok(LocalForm(d))
  {
    hide Eval, LocalForm, IsData;
    var n := EvalData(rt, d, Root);
    assert Evaluates(rt, d, Root, Ok(LocalForm(d)));
    if Evaluates(rt, d, Root, r) {
      EvaluatesUnique(rt, d, Root, r, Ok(LocalForm(d)));
    }
  }

  /** Running an inline intrinsic on data gives what its handler answers for that data, less
      what structs had recorded, whatever the static parameter. */
  lemma {:induction false} InlineRun(rt: Runtime, uri: string, fixed: Option<Value>, meta: Meta, d: Value, r: Result<Value>)
    requires rt.kind(uri) == Inline && rt.checkInline(uri, fixed) == None && IsData(d) && !d.NotSet?
    ensures (exists n: nat :: RunOutcome(rt, n, Intrinsic(uri, fixed, meta), d) == Done(r))
       <==> r == rt.inline(uri, fixed, Norm(d))
  {
    hide Evaluates, Applies, IsData, RunOutcome, Materialize, LocalForm, HasOperator;
    var fn, x := Intrinsic(uri, fixed, meta), LocalForm(d);
    RunFollowsRule(rt, fn, d, r);
    forall f
      ensures Makes(rt, fn, Root, f) <==> f == Ok(Embedded(Ok(fn)))
    {
      EvaluationFollowsRules(rt, fn, Root, f);
    }
    forall q { DataMakes(rt, d, q); }
    InlineAnswer(rt, fn, x, Norm(d)) by { MaterializeLocalForm(d); NoOperator(x); }
    InlinePayload(rt, fn, x, rt.inline(uri, fixed, Norm(d)), r);
    assert Makes(rt, fn, Root, Ok(Embedded(Ok(fn)))) && Makes(rt, d, Root, Ok(x));
    assert CalledOn(rt, Embedded(Ok(fn)), d, r) <==> PayloadOfCall(rt, Embedded(Ok(fn)), x, r);
  }

  lemma {:induction false} NoOperator(x: XVal)
    requires Materialize(x).Ok?
    ensures !HasOperator(x)
  {
    EmbedExact(x);
  }

  lemma {:induction false} InlineAnswer(rt: Runtime, fn: Value, x: XVal, d: Value)
    requires fn.Intrinsic? && rt.kind(fn.uri) == Inline && rt.checkInline(fn.uri, fn.fixed) == None
    requires Materialize(x) == Ok(d) && !HasOperator(x)
    ensures forall y :: Applies(rt, Embedded(Ok(fn)), Some(x), y) <==> y == Ok(Embedded(rt.inline(fn.uri, fn.fixed, d)))
  {
    hide Applies, Materialize, HasOperator;
    forall y
      ensures Applies(rt, Embedded(Ok(fn)), Some(x), y) <==> y == Ok(Embedded(rt.inline(fn.uri, fn.fixed, d)))
    {
      ApplicationFollowsRules(rt, Embedded(Ok(fn)), Some(x), y);
    }
  }

  lemma InlinePayload(rt: Runtime, fn: Value, x: XVal, a: Result<Value>, r: Result<Value>)
    requires forall y :: Applies(rt, Embedded(Ok(fn)), Some(x), y) <==> y == Ok(Embedded(a))
    ensures PayloadOfCall(rt, Embedded(Ok(fn)), x, r) <==> r == a
  {
    hide Applies;
    assert Applies(rt, Embedded(Ok(fn)), Some(x), Ok(Embedded(a)));
    assert Materialize(Embedded(a)) == a;
  }
}
