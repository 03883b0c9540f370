/** From a traced function to the payload of its run. */
module TracedRuns {
  import opened Common
  import opened Ir
  import opened Evaluator
  import opened EvaluationRules
  import opened Relevance
  import opened RoundTrip
  import opened Tracing
  import opened TraceTrees
  import opened TraceMeaning
  import opened TraceReference
  import opened Runners
  import opened RunMeaning

  /** The payload of what the function returns for `x`. */
  ghost predicate ReturnsPayload(rt: Runtime, p: Program, x: XVal, v: Value) {
    exists z :: Returns(rt, p, x, Bind("arg", x, Root), z) && Materialize(z) == Ok(v)
  }

  /** The payload of what the function that `c` evaluates to gives for `x`. */
  ghost predicate RespondsPayload(rt: Runtime, c: Value, x: XVal, v: Value) {
    exists y :: Responds(rt, c, Root, x, Ok(y)) && Materialize(y) == Ok(v)
  }

  lemma {:induction false} RunResponds(rt: Runtime, c: Value, d: Value, v: Value)
    requires IsData(d) && !d.NotSet? && RunRule(rt, c, d, Ok(v)) && !c.NotSet?
    ensures RespondsPayload(rt, c, LocalForm(d), v)
  {
    hide Evaluates, Applies, IsData, LocalForm, Materialize, CalledOn, PayloadOfCall;
    var x := LocalForm(d);
    var f :| Makes(rt, c, Root, f) && if f.Err? then Ok(v) == Err(f.code) else CalledOn(rt, f.value, d, Ok(v));
    CalledOnData(rt, f.value, d, Ok(v));
    PayloadIs(rt, c, f.value, x, v);
  }

  lemma {:induction false} CalledOnData(rt: Runtime, f: XVal, d: Value, r: Result<Value>)
    requires IsData(d) && !d.NotSet?
    ensures CalledOn(rt, f, d, r) <==> PayloadOfCall(rt, f, LocalForm(d), r)
  {
    hide Makes, IsData, LocalForm, PayloadOfCall;
    forall q
      ensures Makes(rt, d, Root, q) <==> q == Ok(LocalForm(d))
    {
      DataMakes(rt, d, q);
    }
    assert Makes(rt, d, Root, Ok(LocalForm(d)));
  }

  lemma PayloadIs(rt: Runtime, c: Value, f: XVal, x: XVal, v: Value)
    requires Evaluates(rt, c, Root, Ok(f)) && PayloadOfCall(rt, f, x, Ok(v))
    ensures RespondsPayload(rt, c, x, v)
  {
    hide Evaluates, Applies, Materialize;
    var y :| Applies(rt, f, Some(x), y) && Ok(v) == if y.Err? then Err(y.code) else Materialize(y.value);
    assert AppliesResult(rt, Ok(f), Some(x), Ok(y.value));
    assert Responds(rt, c, Root, x, Ok(y.value));
  }

  lemma {:induction false} RespondsRun(rt: Runtime, c: Value, d: Value, v: Value)
    requires IsData(d) && !d.NotSet? && RespondsPayload(rt, c, LocalForm(d), v) && !c.NotSet?
    ensures RunRule(rt, c, d, Ok(v))
  {
    hide Evaluates, Applies, IsData, LocalForm, Materialize;
    var x := LocalForm(d);
    var y :| Responds(rt, c, Root, x, Ok(y)) && Materialize(y) == Ok(v);
    var f :| Evaluates(rt, c, Root, f) && AppliesResult(rt, f, Some(x), Ok(y));
    assert PayloadOfCall(rt, f.value, x, Ok(v));
    CalledOnData(rt, f.value, d, Ok(v));
    assert Makes(rt, c, Root, f);
  }

  lemma SamePayload(rt: Runtime, m: Mode, y: XVal, z: XVal)
    requires Same(rt, m, y, z)
    ensures Materialize(y) == Materialize(z)
  {
    EmbedSame(rt, m, y, z);
  }

  lemma ResponsePayload(rt: Runtime, m: Mode, p: Program, x: XVal, v: Value)
    requires ProgramOk(p) && ProgramClosed(rt, m, p) && Covers(rt, m) && BaseOk(rt, m, Root) && Same(rt, m, x, x)
    requires RespondsPayload(rt, Traced(p), x, v)
    ensures ReturnsPayload(rt, p, x, v)
  {
    hide Same, BaseOk, Covers, ProgramClosed, Responds, Returns, Materialize, Traced;
    var y :| Responds(rt, Traced(p), Root, x, Ok(y)) && Materialize(y) == Ok(v);
    TracedReturns(rt, m, p, x, Root, y);
    var z :| Returns(rt, p, x, Bind("arg", x, Root), z) && Same(rt, m, y, z);
    SamePayload(rt, m, y, z);
  }

  lemma ReturnedPayload(rt: Runtime, m: Mode, p: Program, x: XVal, v: Value)
    requires ProgramOk(p) && ProgramClosed(rt, m, p) && Covers(rt, m) && BaseOk(rt, m, Root) && Same(rt, m, x, x)
    requires ReturnsPayload(rt, p, x, v)
    ensures RespondsPayload(rt, Traced(p), x, v)
  {
    hide Same, BaseOk, Covers, ProgramClosed, Responds, Returns, Materialize, Traced;
    var z :| Returns(rt, p, x, Bind("arg", x, Root), z) && Materialize(z) == Ok(v);
    ReturnsTraced(rt, m, p, x, Root, z);
    var y :| Responds(rt, Traced(p), Root, x, Ok(y)) && Same(rt, m, y, z);
    SamePayload(rt, m, y, z);
  }

  /** Running what the tracer made of a function, on data, gives exactly the payloads of what
      the function returns for that data. */
  lemma {:induction false} TracedRun(rt: Runtime, m: Mode, p: Program, d: Value, v: Value)
    requires ProgramOk(p) && ProgramClosed(rt, m, p) && Covers(rt, m) && BaseOk(rt, m, Root)
    requires IsData(d) && !d.NotSet? && Same(rt, m, LocalForm(d), LocalForm(d))
    ensures (exists n: nat :: RunOutcome(rt, n, Traced(p), d) == Done(Ok(v))) <==> ReturnsPayload(rt, p, LocalForm(d), v)
  {
    hide Same, BaseOk, Covers, ProgramClosed, RespondsPayload, ReturnsPayload, RunOutcome, RunRule, LocalForm, IsData;
    RunFollowsRule(rt, Traced(p), d, Ok(v));
    if RunRule(rt, Traced(p), d, Ok(v)) {
      RunResponds(rt, Traced(p), d, v);
      ResponsePayload(rt, m, p, LocalForm(d), v);
    }
    if ReturnsPayload(rt, p, LocalForm(d), v) {
      ReturnedPayload(rt, m, p, LocalForm(d), v);
      RespondsRun(rt, Traced(p), d, v);
    }
  }
}
