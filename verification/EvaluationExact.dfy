/** Evaluation follows the rules. */
module EvaluationExact {
  import opened Common
  import opened Ir
  import opened Evaluator
  import opened Fuel
  import opened EvaluationRules

  // Payloads, selections, calls in the child, lists and expressions.

  // ----- payloads, selections and the child -----

  lemma {:induction false} EmbedExact(x: XVal)
    ensures Embed(x) == if HasOperator(x) then Err(Internal) else Ok(Materialize(x))
    decreases x, 1
  {
    if x.Structure? {
      EmbedAllExact(x.elements);
    }
  }

  lemma {:induction false} EmbedAllExact(xs: seq<XVal>)
    ensures EmbedAll(xs).Err? <==> exists i :: 0 <= i < |xs| && HasOperator(xs[i])
    ensures EmbedAll(xs).Err? ==> EmbedAll(xs).code == Internal
    ensures EmbedAll(xs).Ok? ==> forall i :: 0 <= i < |xs| ==> Materialize(xs[i]) == EmbedAll(xs).value[i]
    decreases xs, 0
  {
    if xs != [] {
      EmbedExact(xs[0]);
      EmbedAllExact(xs[1..]);
      assert forall i :: 0 < i < |xs| ==> xs[i] == xs[1..][i - 1];
    }
  }

  lemma {:induction false} MembersExact(fs: seq<Result<Value>>)
    ensures ChildMembers(fs).Ok? ==>
              |ChildMembers(fs).value| == |fs| && forall i :: 0 <= i < |fs| ==> fs[i] == Ok(ChildMembers(fs).value[i])
    ensures ChildMembers(fs).Err? ==>
              exists i :: 0 <= i < |fs| && fs[i] == Err(ChildMembers(fs).code) && forall j :: 0 <= j < i ==> fs[j].Ok?
    decreases |fs|
  {
    if fs != [] {
      MembersExact(fs[1..]);
      assert fs[0].Ok? && ChildMembers(fs[1..]).Err? ==>
          forall i :: 0 <= i < |fs[1..]| ==> fs[1..][i] == fs[i + 1];
      if fs[0].Err? {
        assert fs[0] == Err(ChildMembers(fs).code);
      } else if ChildMembers(fs[1..]).Err? {
        var i :| 0 <= i < |fs[1..]| && fs[1..][i] == Err(ChildMembers(fs).code) && forall j :: 0 <= j < i ==> fs[1..][j].Ok?;
        assert fs[i + 1] == Err(ChildMembers(fs).code);
        assert forall j :: 0 <= j < i + 1 ==> j == 0 || fs[j] == fs[1..][j - 1];
      }
    }
  }

  /** Materialising follows the rule for payloads. */
  lemma PayloadExact(x: XVal, r: Result<Value>)
    ensures Materialize(x) == r <==> PayloadRule(x, r)
  {
    if x.Structure? {
      EmbedAllExact(x.elements);
      if EmbedAll(x.elements).Ok? {
        var fs := EmbedAll(x.elements).value;
        MembersExact(fs);
        if ChildMembers(fs).Ok? && r.Ok? && PayloadRule(x, r) {
          assert r.value.elements == ChildMembers(fs).value;
        }
      }
    }
  }

  lemma SelectionExact(x: XVal, index: int32, r: Result<XVal>)
    ensures Selection(x, U32(index)) == r <==> SelectionRule(x, index, r)
  {
  }

  lemma CheckOpExact(op: Op, fixed: Option<Value>)
    ensures CheckOp(op, fixed) == if WellFormed(op, fixed) then None else Some(InvalidArgument)
  {
  }

  /** A call in the child succeeds exactly when the function is a well-formed inline intrinsic
      whose handler succeeds on the payload, whatever its static parameter. */
  lemma InlineExact(rt: Runtime, f: Result<Value>, a: Result<Value>, r: Result<Value>)
    ensures ChildCall(rt, f, a) == r <==> InlineRule(rt, f, a, r)
  {
    if f.Ok? && f.value.Intrinsic? && rt.kind(f.value.uri).ControlFlow? {
      CheckOpExact(rt.kind(f.value.uri).op, f.value.fixed);
    }
  }

  // ----- scopes -----

  /** The binding `k` levels out is of `name`, to `x`, and none further in is of that name. */
  ghost predicate BindsAt(s: Scope, k: nat, name: string, x: XVal) {
    s.Bind? && if k == 0 then s.name == name && s.value == x else s.name != name && BindsAt(s.parent, k - 1, name, x)
  }

  lemma {:induction false} BindingResolves(s: Scope, k: nat, name: string, x: XVal)
    requires BindsAt(s, k, name, x)
    ensures Resolve(s, name) == Ok(x)
    decreases k
  {
    if k > 0 {
      BindingResolves(s.parent, k - 1, name, x);
    }
  }

  lemma {:induction false} ResolvesToBinding(s: Scope, name: string) returns (k: nat)
    ensures match Resolve(s, name) case Ok(x) => BindsAt(s, k, name, x) case Err(c) => c == NotFound
    decreases s
  {
    k := 0;
    if s.Bind? && s.name != name {
      var i := ResolvesToBinding(s.parent, name);
      k := i + 1;
    }
  }

  /** A reference is looked up in the innermost binding of its name. */
  lemma {:induction false} ResolveExact(s: Scope, name: string, x: XVal)
    ensures Resolve(s, name) == Ok(x) <==> exists k: nat :: BindsAt(s, k, name, x)
    ensures Resolve(s, name) == Err(NotFound) <==> forall k: nat, y :: !BindsAt(s, k, name, y)
  {
    hide Resolve, BindsAt;
    var i := ResolvesToBinding(s, name);
    forall k: nat, y | BindsAt(s, k, name, y)
      ensures Resolve(s, name) == Ok(y)
    {
      BindingResolves(s, k, name, y);
    }
    if Resolve(s, name).Ok? {
      assert BindsAt(s, i, name, Resolve(s, name).value);
    }
  }

  // ----- lists -----

  function Larger(i: nat, j: nat): nat { if i < j then j else i }

  function One(rt: Runtime, n: nat, way: Way, v: Value, s: Scope): Outcome<XVal> {
    match way
    case Evaluated => Eval(rt, n, v, s)
    case Made => Create(rt, n, v, s)
    case Mapped(f) => OnElement(rt, n, f, v, s)
  }

  function All(rt: Runtime, n: nat, way: Way, vs: seq<Value>, s: Scope): Outcome<seq<XVal>> {
    match way
    case Evaluated => EvalAll(rt, n, vs, s)
    case Made => CreateAll(rt, n, vs, s)
    case Mapped(f) => MapFrom(rt, n, f, vs, s)
  }

  lemma {:induction false} AllUnfolds(rt: Runtime, n: nat, way: Way, vs: seq<Value>, s: Scope)
    ensures vs == [] ==> All(rt, n, way, vs, s) == Done(Ok([]))
    ensures vs != [] ==>
      var y := One(rt, n, way, vs[0], s);
      All(rt, n, way, vs, s) ==
        if y.IsOk() then Followed([y.result.value], All(rt, n, way, vs[1..], s)) else y.PropagateFailure()
  {
    hide Eval, Create, OnElement;
    if way.Mapped? {
      MapUnfolds(rt, n, way.f, vs, s);
    }
  }

  lemma {:induction false} MakesSound(rt: Runtime, n: nat, v: Value, s: Scope)
    requires Create(rt, n, v, s).Done?
    ensures Makes(rt, v, s, Create(rt, n, v, s).result)
  {
    hide Eval;
    assert Eval(rt, n, v, s).Done? ==> Evaluates(rt, v, s, Eval(rt, n, v, s).result);
  }

  lemma MakesFuel(rt: Runtime, v: Value, s: Scope, r: Result<XVal>) returns (n: nat)
    requires Makes(rt, v, s, r)
    ensures Create(rt, n, v, s) == Done(r)
  {
    hide Eval;
    n := 0;
    if !v.NotSet? {
      n :| Eval(rt, n, v, s) == Done(r);
    }
  }

  lemma GivesSound(rt: Runtime, n: nat, way: Way, v: Value, s: Scope)
    requires One(rt, n, way, v, s).Done?
    ensures Gives(rt, way, v, s, One(rt, n, way, v, s).result)
  {
    hide Eval, Create, Apply, Makes;
    var r := One(rt, n, way, v, s).result;
    match way
    case Evaluated => assert Eval(rt, n, v, s) == Done(r);
    case Made => MakesSound(rt, n, v, s);
    case Mapped(f) =>
      MakesSound(rt, n, v, s);
      var x := Create(rt, n, v, s).result;
      assert Makes(rt, v, s, x);
      assert x.Ok? ==> Apply(rt, n, f, Some(x.value)) == Done(r);
  }

  lemma GivesFuel(rt: Runtime, way: Way, v: Value, s: Scope, r: Result<XVal>) returns (n: nat)
    requires Gives(rt, way, v, s, r)
    ensures One(rt, n, way, v, s) == Done(r)
  {
    hide Eval, Create, Apply, Makes;
    match way
    case Evaluated => n :| Eval(rt, n, v, s) == Done(r);
    case Made => n := MakesFuel(rt, v, s, r);
    case Mapped(f) =>
      var x :| Makes(rt, v, s, x) && if x.Err? then r == Err(x.code) else Applies(rt, f, Some(x.value), r);
      n := MakesFuel(rt, v, s, x);
      if x.Ok? {
        var i := n;
        var j: nat :| Apply(rt, j, f, Some(x.value)) == Done(r);
        n := Larger(i, j);
        CreateMono(rt, i, n, v, s);
        ApplyMono(rt, j, n, f, Some(x.value));
      }
  }

  lemma {:induction false} OneMono(rt: Runtime, n: nat, m: nat, way: Way, v: Value, s: Scope)
    requires n <= m && One(rt, n, way, v, s).Done?
    ensures One(rt, m, way, v, s) == One(rt, n, way, v, s)
  {
    hide Eval, Create, Apply;
    match way
    case Evaluated => EvalMono(rt, n, m, v, s);
    case Made => CreateMono(rt, n, m, v, s);
    case Mapped(f) =>
      CreateMono(rt, n, m, v, s);
      var x := Create(rt, n, v, s);
      if x.IsOk() {
        ApplyMono(rt, n, m, f, Some(x.result.value));
      }
  }

  lemma AllMono(rt: Runtime, n: nat, m: nat, way: Way, vs: seq<Value>, s: Scope)
    requires n <= m && All(rt, n, way, vs, s).Done?
    ensures All(rt, m, way, vs, s) == All(rt, n, way, vs, s)
  {
    match way
    case Evaluated => EvalAllMono(rt, n, m, vs, s);
    case Made => CreateAllMono(rt, n, m, vs, s);
    case Mapped(f) => MapMono(rt, n, m, f, vs, s);
  }

  /** One member of the list, then the others. */
  lemma InOrderStep(rt: Runtime, way: Way, vs: seq<Value>, s: Scope, x: XVal, rest: Result<seq<XVal>>)
    requires vs != [] && Gives(rt, way, vs[0], s, Ok(x)) && InOrder(rt, way, vs[1..], s, rest)
    ensures InOrder(rt, way, vs, s, if rest.Ok? then Ok([x] + rest.value) else rest)
  {
    hide Gives;
    if rest.Err? {
      var i :| 0 <= i < |vs[1..]| && Gives(rt, way, vs[1..][i], s, Err(rest.code))
               && forall j :: 0 <= j < i ==> Succeeds(rt, way, vs[1..][j], s);
      assert Gives(rt, way, vs[i + 1], s, Err(rest.code));
      forall j | 0 <= j < i + 1
        ensures Succeeds(rt, way, vs[j], s)
      {
        assert j > 0 ==> vs[j] == vs[1..][j - 1];
      }
    }
  }

  lemma InOrderTail(rt: Runtime, way: Way, vs: seq<Value>, s: Scope, c: Code) returns (x: XVal)
    requires vs != [] && InOrder(rt, way, vs, s, Err(c)) && !Gives(rt, way, vs[0], s, Err(c))
    ensures Gives(rt, way, vs[0], s, Ok(x)) && InOrder(rt, way, vs[1..], s, Err(c))
  {
    hide Gives;
    var i :| 0 <= i < |vs| && Gives(rt, way, vs[i], s, Err(c)) && forall j :: 0 <= j < i ==> Succeeds(rt, way, vs[j], s);
    assert i > 0 && Succeeds(rt, way, vs[0], s);
    x :| Gives(rt, way, vs[0], s, Ok(x));
    assert vs[1..][i - 1] == vs[i];
    forall j | 0 <= j < i - 1
      ensures Succeeds(rt, way, vs[1..][j], s)
    {
      assert vs[1..][j] == vs[j + 1];
    }
  }

  lemma {:induction false} InOrderSound(rt: Runtime, n: nat, way: Way, vs: seq<Value>, s: Scope)
    requires All(rt, n, way, vs, s).Done?
    ensures InOrder(rt, way, vs, s, All(rt, n, way, vs, s).result)
    decreases |vs|
  {
    hide Gives, One, All;
    AllUnfolds(rt, n, way, vs, s);
    if vs != [] {
      GivesSound(rt, n, way, vs[0], s);
      var y := One(rt, n, way, vs[0], s);
      if y.IsOk() {
        InOrderSound(rt, n, way, vs[1..], s);
        InOrderStep(rt, way, vs, s, y.result.value, All(rt, n, way, vs[1..], s).result);
      }
    }
  }

  lemma {:induction false} InOrderFuel(rt: Runtime, way: Way, vs: seq<Value>, s: Scope, r: Result<seq<XVal>>)
      returns (n: nat)
    requires InOrder(rt, way, vs, s, r)
    ensures All(rt, n, way, vs, s) == Done(r)
    decreases |vs|
  {
    hide Gives, One, All;
    n := 0;
    AllUnfolds(rt, n, way, vs, s);
    if vs != [] {
      if r.Err? && Gives(rt, way, vs[0], s, Err(r.code)) {
        n := GivesFuel(rt, way, vs[0], s, Err(r.code));
      } else {
        var x, rest;
        if r.Ok? {
          x, rest := r.value[0], Ok(r.value[1..]);
          assert r.value == [x] + rest.value;
        } else {
          x := InOrderTail(rt, way, vs, s, r.code);
          rest := r;
        }
        var i := GivesFuel(rt, way, vs[0], s, Ok(x));
        var j := InOrderFuel(rt, way, vs[1..], s, rest);
        n := Larger(i, j);
        OneMono(rt, i, n, way, vs[0], s);
        AllMono(rt, j, n, way, vs[1..], s);
      }
      AllUnfolds(rt, n, way, vs, s);
    }
  }

  // ----- expressions -----

  lemma {:induction false} EvaluationSound(rt: Runtime, n: nat, v: Value, s: Scope)
    requires Eval(rt, n, v, s).Done?
    ensures EvaluationRule(rt, v, s, Eval(rt, n, v, s).result)
  {
    hide SelectionRule, CallRule, BlockRule, InOrder, Apply, Evaluates, Applies;
    match v
    case NotSet(_) =>
    case Leaf(_, _) =>
    case Ref(_, _) =>
    case Lambda(_, _, _) =>
    case Intrinsic(uri, fixed, _) =>
      if rt.kind(uri).ControlFlow? {
        CheckOpExact(rt.kind(uri).op, fixed);
      }
    case Struct(vs, _) => InOrderSound(rt, n - 1, Evaluated, vs, s);
    case Select(source, index, _) => SelectSound(rt, n, v, s);
    case Call(_, _, _) => CallSound(rt, n, v, s);
    case Block(_, _, _) => BlockSound(rt, n, v, s);
  }

  lemma {:induction false} EvalIs(rt: Runtime, n: nat, v: Value, s: Scope, r: Result<XVal>)
    requires Eval(rt, n, v, s) == Done(r)
    ensures Evaluates(rt, v, s, r)
  {
  }

  lemma {:induction false} SelectSound(rt: Runtime, n: nat, v: Value, s: Scope)
    requires v.Select? && Eval(rt, n, v, s).Done?
    ensures EvaluationRule(rt, v, s, Eval(rt, n, v, s).result)
  {
    hide SelectionRule, Selection, Evaluates, InOrder, CallRule, BlockRule;
    var x := Eval(rt, n - 1, v.source, s).result;
    EvalIs(rt, n - 1, v.source, s, x);
    if x.Ok? {
      SelectionExact(x.value, v.index, Selection(x.value, U32(v.index)));
    }
  }

  lemma {:induction false} CallSound(rt: Runtime, n: nat, v: Value, s: Scope)
    requires v.Call? && Eval(rt, n, v, s).Done?
    ensures EvaluationRule(rt, v, s, Eval(rt, n, v, s).result)
  {
    hide Apply, Evaluates, SelectionRule, InOrder, BlockRule;
    var r, f := Eval(rt, n, v, s).result, Eval(rt, n - 1, v.fn, s).result;
    EvalIs(rt, n - 1, v.fn, s, f);
    if f.Ok? {
      if v.argument.Some? {
        var x := Eval(rt, n - 1, v.argument.value, s).result;
        EvalIs(rt, n - 1, v.argument.value, s, x);
        assert x.Ok? ==> Apply(rt, n - 1, f.value, Some(x.value)) == Done(r);
      } else {
        assert Apply(rt, n - 1, f.value, None) == Done(r);
      }
      assert CallRule(rt, f, v.argument, s, r);
    }
  }

  lemma {:induction false} BlockSound(rt: Runtime, n: nat, v: Value, s: Scope)
    requires v.Block? && Eval(rt, n, v, s).Done?
    ensures EvaluationRule(rt, v, s, Eval(rt, n, v, s).result)
  {
    hide Apply, SelectionRule, InOrder, CallRule;
    var r := Eval(rt, n, v, s).result;
    if v.locals == [] {
      EvalIs(rt, n - 1, v.result, s, r);
    } else {
      var x := Eval(rt, n - 1, v.locals[0].value, s).result;
      EvalIs(rt, n - 1, v.locals[0].value, s, x);
      if x.Ok? {
        EvalIs(rt, n, Block(v.locals[1..], v.result, NO_META), Bind(v.locals[0].name, x.value, s), r);
      }
      assert BlockRule(rt, x, v.locals[0].name, v.locals[1..], v.result, s, r);
    }
  }

  lemma {:induction false} EvaluationFuel(rt: Runtime, v: Value, s: Scope, r: Result<XVal>) returns (n: nat)
    requires EvaluationRule(rt, v, s, r)
    ensures Eval(rt, n, v, s) == Done(r)
  {
    hide SelectionRule, CallRule, BlockRule, InOrder, Apply, Evaluates, Applies;
    n := 1;
    match v
    case NotSet(_) =>
    case Leaf(_, _) =>
    case Ref(_, _) =>
    case Lambda(_, _, _) =>
    case Intrinsic(uri, fixed, _) =>
      if rt.kind(uri).ControlFlow? {
        CheckOpExact(rt.kind(uri).op, fixed);
      }
    case Struct(vs, _) =>
      var xs :| InOrder(rt, Evaluated, vs, s, xs) && r == StructureOf(xs);
      n := InOrderFuel(rt, Evaluated, vs, s, xs);
      n := n + 1;
    case Select(_, _, _) => n := SelectFuel(rt, v, s, r);
    case Call(_, _, _) => n := CallFuel(rt, v, s, r);
    case Block(_, _, _) => n := BlockFuel(rt, v, s, r);
  }

  lemma {:induction false} SelectFuel(rt: Runtime, v: Value, s: Scope, r: Result<XVal>) returns (n: nat)
    requires v.Select? && EvaluationRule(rt, v, s, r)
    ensures Eval(rt, n, v, s) == Done(r)
  {
    hide SelectionRule, Selection, InOrder, CallRule, BlockRule;
    var x :| Evaluates(rt, v.source, s, x) && if x.Err? then r == Err(x.code) else SelectionRule(x.value, v.index, r);
    var i: nat :| Eval(rt, i, v.source, s) == Done(x);
    if x.Ok? {
      SelectionExact(x.value, v.index, r);
    }
    n := i + 1;
  }

  lemma {:induction false} CallFuel(rt: Runtime, v: Value, s: Scope, r: Result<XVal>) returns (n: nat)
    requires v.Call? && EvaluationRule(rt, v, s, r)
    ensures Eval(rt, n, v, s) == Done(r)
  {
    hide Apply, SelectionRule, InOrder, BlockRule;
    var f :| Evaluates(rt, v.fn, s, f) && CallRule(rt, f, v.argument, s, r);
    var i: nat :| Eval(rt, i, v.fn, s) == Done(f);
    n := i + 1;
    if f.Ok? {
      var j, k := CallParts(rt, f.value, v.argument, s, r);
      n := Larger(i, Larger(j, k));
      EvalMono(rt, i, n, v.fn, s);
      EvalArgumentMono(rt, j, n, v.argument, s);
      var a := EvalArgument(rt, n, v.argument, s);
      if a.IsOk() {
        ApplyMono(rt, k, n, f.value, a.result.value);
      }
      n := n + 1;
    }
  }

  lemma CallParts(rt: Runtime, f: XVal, a: Option<Value>, s: Scope, r: Result<XVal>) returns (j: nat, k: nat)
    requires CallRule(rt, Ok(f), a, s, r)
    ensures var b := EvalArgument(rt, j, a, s);
            b.Done? && if b.result.Err? then r == Err(b.result.code) else Apply(rt, k, f, b.result.value) == Done(r)
  {
    hide Eval, Apply;
    j, k := 0, 0;
    if a.None? {
      k :| Apply(rt, k, f, None) == Done(r);
    } else {
      var x :| Evaluates(rt, a.value, s, x) && if x.Err? then r == Err(x.code) else Applies(rt, f, Some(x.value), r);
      j :| Eval(rt, j, a.value, s) == Done(x);
      if x.Ok? {
        k :| Apply(rt, k, f, Some(x.value)) == Done(r);
      }
    }
  }

  lemma {:induction false} BlockFuel(rt: Runtime, v: Value, s: Scope, r: Result<XVal>) returns (n: nat)
    requires v.Block? && EvaluationRule(rt, v, s, r)
    ensures Eval(rt, n, v, s) == Done(r)
  {
    hide Apply, SelectionRule, InOrder, CallRule;
    if v.locals == [] {
      var i: nat :| Eval(rt, i, v.result, s) == Done(r);
      n := i + 1;
    } else {
      var x :| Evaluates(rt, v.locals[0].value, s, x)
               && BlockRule(rt, x, v.locals[0].name, v.locals[1..], v.result, s, r);
      var i: nat :| Eval(rt, i, v.locals[0].value, s) == Done(x);
      var j: nat := 0;
      if x.Ok? {
        var rest, t := Block(v.locals[1..], v.result, NO_META), Bind(v.locals[0].name, x.value, s);
        j :| Eval(rt, j, rest, t) == Done(r);
        EvalMono(rt, j, Larger(i, j) + 1, rest, t);
      }
      n := Larger(i, j);
      EvalMono(rt, i, n, v.locals[0].value, s);
      n := n + 1;
    }
  }

  /** An expression has a result exactly when its rule gives it. */
  lemma EvaluationFollowsRules(rt: Runtime, v: Value, s: Scope, r: Result<XVal>)
    ensures Evaluates(rt, v, s, r) <==> EvaluationRule(rt, v, s, r)
  {
    hide Eval, EvaluationRule;
    if n: nat :| Eval(rt, n, v, s) == Done(r) {
      EvaluationSound(rt, n, v, s);
    }
    if EvaluationRule(rt, v, s, r) {
      var n := EvaluationFuel(rt, v, s, r);
    }
  }
}
