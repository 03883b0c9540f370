/** The control-flow executor and its handlers as they run: loops, scopes and the ids they
    take from the child executor.

    genc/cc/runtime/control_flow_executor.cc and genc/cc/intrinsics. Each method computes what
    the function of the same name in `Evaluator` says; what the source promises is proved
    about those functions. */
module ControlFlowExecutors {
  import opened Common
  import opened Ir
  import opened Evaluator
  import opened IdTables
  import opened InlineExecutors
  import opened ExecutorValues
  import opened ValueReferences

  /** The embedding of a struct, field by field. */
  lemma {:induction false} EmbedAllOk(xs: seq<XVal>, fs: seq<Future>)
    requires |fs| == |xs| && forall k :: 0 <= k < |xs| ==> Embed(xs[k]) == Ok(fs[k])
    ensures EmbedAll(xs) == Ok(fs)
  {
    if xs != [] {
      EmbedAllOk(xs[1..], fs[1..]);
      assert [fs[0]] + fs[1..] == fs;
    }
  }

  lemma {:induction false} EmbedStructure(xs: seq<XVal>)
    ensures EmbedAll(xs).Ok? ==> Embed(Structure(xs)) == Ok(ChildStruct(EmbedAll(xs).value))
    ensures EmbedAll(xs).Err? ==> Embed(Structure(xs)) == Err(EmbedAll(xs).code)
  {
  }

  lemma {:induction false} EmbedAllErr(xs: seq<XVal>, i: nat, c: Code)
    requires i < |xs| && Embed(xs[i]) == Err(c) && forall k :: 0 <= k < i ==> Embed(xs[k]).Ok?
    ensures EmbedAll(xs) == Err(c)
  {
    if i > 0 {
      EmbedAllErr(xs[1..], i - 1, c);
    }
  }

  /** One function of a breakable chain: the state it leads to, and whether the chain ends. */
  function BreakableStep(rt: Runtime, n: nat, v: Value, x: XVal, s: Scope): Outcome<(XVal, bool)> {
    var f :- Create(rt, n, v, s);
    var (y, d) :- Ask(rt, n, f, Some(x));
    Done(Ok(if IsBoolean(d) then (x, BooleanOf(d)) else (y, false)))
  }

  lemma {:induction false} BreakableUnfolds(rt: Runtime, n: nat, fns: seq<Value>, x: XVal, s: Scope)
    ensures fns == [] ==> BreakableFrom(rt, n, fns, x, s) == Done(Ok(x))
    ensures fns != [] ==>
      BreakableFrom(rt, n, fns, x, s) == (
        var (y, stop) :- BreakableStep(rt, n, fns[0], x, s);
        if stop then Done(Ok(y)) else BreakableFrom(rt, n, fns[1..], y, s))
  {
  }

  /** One turn of `While`: the state it leads to, and whether the loop ends. */
  function WhileStep(rt: Runtime, n: nat, c: XVal, f: XVal, x: XVal): Outcome<(XVal, bool)> {
    var d :- Answer(Ask(rt, n, c, Some(x)));
    if !IsBoolean(d) then Done(Err(InvalidArgument))
    else if !BooleanOf(d) then Done(Ok((x, true)))
    else
      var y :- Apply(rt, n, f, Some(x));
      Done(Ok((y, false)))
  }

  lemma WhileUnfolds(rt: Runtime, n: nat, c: XVal, f: XVal, x: XVal)
    requires n > 0
    ensures WhileFrom(rt, n, c, f, x) ==
      (var (y, stop) :- WhileStep(rt, n - 1, c, f, x);
      if stop then Done(Ok(y)) else WhileFrom(rt, n - 1, c, f, y))
  {
  }

  /** One function of a round: the state it leads to, and whether it asks to break. */
  function RoundStep(rt: Runtime, n: nat, f: XVal, x: XVal, s: Scope): Outcome<(XVal, bool)> {
    var d :- Answer(Ask(rt, n, f, Some(x)));
    if IsBoolean(d) then Done(Ok((x, BooleanOf(d))))
    else
      var y :- Create(rt, n, d, s);
      Done(Ok((y, false)))
  }

  lemma {:induction false} RoundUnfolds(rt: Runtime, n: nat, fns: seq<XVal>, x: XVal, s: Scope)
    ensures fns == [] ==> Round(rt, n, fns, x, s) == Done(Ok((x, false)))
    ensures fns != [] ==>
      Round(rt, n, fns, x, s) == (
        var (y, stop) :- RoundStep(rt, n, fns[0], x, s);
        if stop then Done(Ok((y, true))) else Round(rt, n, fns[1..], y, s))
  {
  }

  class ControlFlowExecutor {
    const child: InlineExecutor

    // For every child id, how many references to it the values in existence hold, counted as
    // in `Bag`: those of the tracked values and those in the variables of running methods.
    var counts: multiset<nat>

    constructor (child: InlineExecutor)
      requires child.table.tracked == map[] && child.Valid()
      ensures this.child == child && Valid() && counts == multiset{}
    {
      this.child, counts := child, multiset{};
    }

    function Now(): map<nat, Future>
      reads child.table
    {
      child.table.tracked
    }

    ghost function State(): Store
      reads this, child.table
    {
      Store(counts, Now())
    }

    ghost predicate Valid()
      reads this, child.table
    {
      child.Valid() && Consistent(State())
    }

    ghost predicate Holds(b: multiset<nat>)
      reads this, child.table
    {
      child.Valid() && Has(State(), b)
    }

    twostate predicate Gains(new b: multiset<nat>)
      reads this, child.table
    {
      child.Valid() && Gained(old(State()), State(), b)
    }

    twostate predicate Drops(new b: multiset<nat>)
      reads this, child.table
    {
      child.Valid() && Dropped(old(State()), State(), b)
    }

    // ----- references: copies and destructors of shared pointers -----

    method Retain(b: multiset<nat>)
      requires Holds(b)
      modifies this`counts
      ensures Gains(b) && Now() == old(Now())
    {
      counts := counts + b;
    }

    /** The last reference to an embedded value gives its id back to the child. */
    method Release(x: Node)
      requires Holds(Bag(x))
      modifies this`counts, child.table
      ensures Drops(Bag(x))
      decreases x, 1
    {
      match x
      case ChildId(id) =>
        counts := counts - multiset{id};
        if id !in counts {
          var _ := child.table.Dispose(id);
        }
      case Parts(elements) => ReleaseNodes(elements);
      case LambdaIn(_, _, scope) => ReleaseScope(scope);
      case OperatorIn(_, _, scope) => ReleaseScope(scope);
    }

    method ReleaseNodes(xs: seq<Node>)
      requires Holds(BagAll(xs))
      modifies this`counts, child.table
      ensures Drops(BagAll(xs))
      decreases xs, 0
    {
      hide Has, Dropped, Bag;
      ghost var s0 := State();
      if xs == [] {
        DropNothing(s0, BagAll(xs));
        return;
      }
      HasFirst(s0, Bag(xs[0]), BagAll(xs[1..]));
      Release(xs[0]);
      ghost var s1 := State();
      DropMore(s0, s1, s1, Bag(xs[0]), BagAll(xs[1..]));
      ReleaseNodes(xs[1..]);
      DropMore(s0, s1, State(), Bag(xs[0]), BagAll(xs[1..]));
    }

    method ReleaseScope(s: Chain)
      requires Holds(ScopeBag(s))
      modifies this`counts, child.table
      ensures Drops(ScopeBag(s))
      decreases s, 1
    {
      hide Has, Dropped, Bag;
      ghost var s0 := State();
      match s
      case Top => DropNothing(s0, ScopeBag(s));
      case Link(_, value, parent) =>
        HasFirst(s0, Bag(value), ScopeBag(parent));
        Release(value);
        ghost var s1 := State();
        DropMore(s0, s1, s1, Bag(value), ScopeBag(parent));
        ReleaseScope(parent);
        DropMore(s0, s1, State(), Bag(value), ScopeBag(parent));
    }

    // A temporary that is held from `s0` to `s1` and given up when the result `r` is there.

    method Discard(ghost s0: Store, ghost s1: Store, x: Node, ghost r: Outcome<Node>, ghost spec: Outcome<XVal>)
      requires child.Valid() && Gained(s0, s1, Bag(x)) && Gained(s1, State(), Got(r)) && Means(r, spec, Now())
      modifies this`counts, child.table
      ensures child.Valid() && Gained(s0, State(), Got(r)) && Means(r, spec, Now())
    {
      hide Has, Gained, Dropped, Bag, Means;
      ghost var s2 := State();
      HasGained(s0, s1, Bag(x));
      HasStill(s1, s2, Got(r), Bag(x));
      Release(x);
      Outlives(s0, s1, s2, State(), Bag(x), r, spec);
    }

    method DiscardPair<T>(ghost s0: Store, ghost s1: Store, x: Node, ghost r: Outcome<(Node, T)>,
      ghost spec: Outcome<(XVal, T)>)
      requires child.Valid() && Gained(s0, s1, Bag(x)) && Gained(s1, State(), GotPair(r)) && MeanPair(r, spec, Now())
      modifies this`counts, child.table
      ensures child.Valid() && Gained(s0, State(), GotPair(r)) && MeanPair(r, spec, Now())
    {
      hide Has, Gained, Dropped, Bag, MeanPair;
      ghost var s2 := State();
      HasGained(s0, s1, Bag(x));
      HasStill(s1, s2, GotPair(r), Bag(x));
      Release(x);
      PairOutlives(s0, s1, s2, State(), Bag(x), r, spec);
    }

    method DiscardScope(ghost s0: Store, ghost s1: Store, s: Chain, ghost r: Outcome<Node>, ghost spec: Outcome<XVal>)
      requires child.Valid() && Gained(s0, s1, ScopeBag(s)) && Gained(s1, State(), Got(r)) && Means(r, spec, Now())
      modifies this`counts, child.table
      ensures child.Valid() && Gained(s0, State(), Got(r)) && Means(r, spec, Now())
    {
      hide Has, Gained, Dropped, ScopeBag, Means;
      ghost var s2 := State();
      HasGained(s0, s1, ScopeBag(s));
      HasStill(s1, s2, Got(r), ScopeBag(s));
      ReleaseScope(s);
      Outlives(s0, s1, s2, State(), ScopeBag(s), r, spec);
    }

    method DiscardNodes(ghost s0: Store, ghost s1: Store, xs: seq<Node>, ghost r: Outcome<Node>, ghost spec: Outcome<XVal>)
      requires child.Valid() && Gained(s0, s1, BagAll(xs)) && Gained(s1, State(), Got(r)) && Means(r, spec, Now())
      modifies this`counts, child.table
      ensures child.Valid() && Gained(s0, State(), Got(r)) && Means(r, spec, Now())
    {
      hide Has, Gained, Dropped, BagAll, Means;
      ghost var s2 := State();
      HasGained(s0, s1, BagAll(xs));
      HasStill(s1, s2, Got(r), BagAll(xs));
      ReleaseNodes(xs);
      Outlives(s0, s1, s2, State(), BagAll(xs), r, spec);
    }

    /** The same when an error leaves a list behind. */
    method AbandonNodes(ghost s0: Store, ghost s1: Store, xs: seq<Node>)
      requires child.Valid() && Gained(s0, s1, BagAll(xs)) && Gained(s1, State(), multiset{})
      modifies this`counts, child.table
      ensures child.Valid() && Gained(s0, State(), multiset{})
    {
      hide Has, Gained, Dropped, BagAll;
      ghost var s2 := State();
      HasGained(s0, s1, BagAll(xs));
      HasStill(s1, s2, multiset{}, BagAll(xs));
      ReleaseNodes(xs);
      Bracket(s0, s1, s2, State(), BagAll(xs), multiset{});
    }

    /** The same for a scope. */
    method AbandonScope(ghost s0: Store, ghost s1: Store, s: Chain)
      requires child.Valid() && Gained(s0, s1, ScopeBag(s)) && Gained(s1, State(), multiset{})
      modifies this`counts, child.table
      ensures child.Valid() && Gained(s0, State(), multiset{})
    {
      hide Has, Gained, Dropped, ScopeBag;
      ghost var s2 := State();
      HasGained(s0, s1, ScopeBag(s));
      HasStill(s1, s2, multiset{}, ScopeBag(s));
      ReleaseScope(s);
      Bracket(s0, s1, s2, State(), ScopeBag(s), multiset{});
    }

    // ----- slots: ids that a method owns by itself -----

    /** The destructors of a list of owned ids. */
    method ReleaseAll(slots: seq<nat>)
      requires child.Valid()
      modifies child.table
      ensures child.Valid() && child.table.nextValueId == old(child.table.nextValueId)
      ensures Now() == old(Now()) - set id | id in slots
    {
      for i := 0 to |slots|
        invariant child.Valid() && child.table.nextValueId == old(child.table.nextValueId)
        invariant Now() == old(Now()) - set id | id in slots[..i]
      {
        var _ := child.table.Dispose(slots[i]);
        assert slots[..i + 1] == slots[..i] + [slots[i]];
      }
      assert slots[..|slots|] == slots;
    }

    /** The child id for a value. At most one new id stays tracked, the one in `slot`, however
        deep the structs nest, and an error leaves none. */
    method EmbedValue(x: Node) returns (r: Result<nat>, slot: Option<nat>)
      requires child.Valid() && Bound(x, Now())
      modifies child.table
      ensures child.Valid() && child.table.nextValueId >= old(child.table.nextValueId)
      ensures slot.None? ==> Now() == old(Now())
      ensures slot.Some? ==> r == Ok(slot.value) && slot.value !in old(Now())
      ensures slot.Some? ==> slot.value in Now() && Now() == old(Now())[slot.value := Now()[slot.value]]
      ensures r.Ok? ==> r.value in Now() && Evaluator.Embed(Denote(x, old(Now()))) == Ok(Now()[r.value])
      ensures r.Err? ==> Evaluator.Embed(Denote(x, old(Now()))) == Err(r.code)
      decreases x
    {
      match x
      case ChildId(id) =>
        return Ok(id), None;
      case Parts(elements) =>
        PartsBound(elements, Now());
        r, slot := EmbedStruct(elements);
      case LambdaIn(param, body, _) =>
        var id := child.CreateValue(Lambda(param, body, NO_META));
        return Ok(id), Some(id);
      case OperatorIn(_, _, _) =>
        return Err(Internal), None;
    }

    method EmbedStruct(elements: seq<Node>) returns (r: Result<nat>, slot: Option<nat>)
      requires child.Valid() && AllBound(elements, Now())
      modifies child.table
      ensures child.Valid() && child.table.nextValueId >= old(child.table.nextValueId)
      ensures slot.None? ==> Now() == old(Now())
      ensures slot.Some? ==> r == Ok(slot.value) && slot.value !in old(Now())
      ensures slot.Some? ==> slot.value in Now() && Now() == old(Now())[slot.value := Now()[slot.value]]
      ensures r.Ok? ==> slot.Some? && Evaluator.Embed(Structure(DenoteAll(elements, old(Now())))) == Ok(Now()[r.value])
      ensures r.Err? ==> Evaluator.Embed(Structure(DenoteAll(elements, old(Now())))) == Err(r.code)
      decreases elements
    {
      ghost var m0 := Now();
      ghost var xs := DenoteAll(elements, m0);
      EmbedStructure(xs);
      hide Evaluator.Embed, EmbedAll, ChildStruct, Denote, Bag;
      var fieldSlots: seq<nat> := [];
      var fieldIds: seq<nat> := [];
      for i := 0 to |elements|
        invariant child.Valid() && child.table.nextValueId >= old(child.table.nextValueId)
        invariant Now().Keys == m0.Keys + set id | id in fieldSlots
        invariant Grows(m0, Now()) && forall k :: 0 <= k < |fieldSlots| ==> fieldSlots[k] !in m0
        invariant |fieldIds| == i
        invariant forall k :: 0 <= k < i ==> fieldIds[k] in Now() && Evaluator.Embed(xs[k]) == Ok(Now()[fieldIds[k]])
      {
        assert Bound(elements[i], m0);
        KeepNode(elements[i], m0, Now());
        var fieldId, fieldSlot := EmbedValue(elements[i]);
        if fieldId.Err? {
          EmbedAllErr(xs, i, fieldId.code);
          ReleaseAll(fieldSlots);
          assert Now() == m0;
          return Err(fieldId.code), None;
        }
        if fieldSlot.Some? {
          fieldSlots := fieldSlots + [fieldSlot.value];
        }
        fieldIds := fieldIds + [fieldId.value];
      }
      ghost var fs := FuturesOf(Now(), fieldIds);
      EmbedAllOk(xs, fs);
      var id := child.CreateStruct(fieldIds);
      ReleaseAll(fieldSlots);
      assert Now() == m0[id.value := ChildStruct(fs)];
      return id, Some(id.value);
    }

    /** `ConstMaterialize`: leaves the child's table as it was. */
    method MaterializeValue(x: Node) returns (r: Result<Value>)
      requires child.Valid() && Bound(x, Now())
      modifies child.table
      ensures child.Valid() && child.table.nextValueId >= old(child.table.nextValueId)
      ensures Now() == old(Now()) && r == Evaluator.Materialize(Denote(x, Now()))
    {
      var id, slot := EmbedValue(x);
      if id.Err? {
        return Err(id.code);
      }
      r := child.Materialize(id.value);
      if slot.Some? {
        ReleaseAll([slot.value]);
      }
      assert Now() == old(Now());
    }

    // ----- evaluation -----

    // Whoever calls a method keeps scope and arguments alive while it runs. The result
    // belongs to the caller, and everything else a method created is given back on every way
    // out: the references grow by those of the result, and by none on an error.

    method Evaluate(n: nat, v: Value, s: Chain) returns (r: Outcome<Node>)
      requires Holds(ScopeBag(s))
      modifies this`counts, child.table
      ensures Gains(Got(r)) && Means(r, Eval(child.rt, n, v, DenoteScope(s, old(Now()))), Now())
      decreases n, 0, 0
    {
      hide Has, Gained, Bound, Bag, ScopeBag, Denote, DenoteScope, EvalBlock, EvalAll, Apply, EvalIntrinsic;
      ghost var s0 := State();
      if n == 0 {
        HasGainsNothing(s0, ScopeBag(s));
        return OutOfFuel;
      }
      match v
      case Block(locals, result, _) => r := EvaluateBlock(n - 1, locals, result, s);
      case Ref(name, _) => r := EvaluateReference(name, s);
      case Call(fn, argument, _) => r := EvaluateCall(n - 1, fn, argument, s);
      case Select(source, index, _) => r := EvaluateSelection(n - 1, source, U32(index), s);
      case Struct(elements, _) =>
        var xs :- EvaluateStruct(n - 1, elements, s);
        PartsBag(xs, Now());
        return Done(Ok(Parts(xs)));
      case Lambda(param, body, _) => r := EvaluateLambda(param, body, s);
      case Intrinsic(_, _, _) => r := EvaluateIntrinsic(v, s);
      case _ =>
        HasConsistent(s0, ScopeBag(s));
        r := CreateEmbedded(v);
    }

    method CreateEmbedded(v: Value) returns (r: Outcome<Node>)
      requires Valid()
      modifies this`counts, child.table
      ensures Gains(Got(r)) && Means(r, Done(Ok(Embedded(Ok(v)))), Now())
    {
      var id := child.CreateValue(v);
      counts := counts + multiset{id};
      return Done(Ok(ChildId(id)));
    }

    method EvaluateReference(name: string, s: Chain) returns (r: Outcome<Node>)
      requires Holds(ScopeBag(s))
      modifies this`counts
      ensures Gains(Got(r)) && Means(r, Done(Resolve(DenoteScope(s, old(Now())), name)), Now())
    {
      hide Bag, ScopeBag, Denote, DenoteScope, Resolve, Lookup;
      LookupMeans(s, name, Now());
      LookupHas(s, name);
      r := Done(Lookup(s, name));
      Retain(Got(r));
    }

    method EvaluateLambda(param: string, body: Value, s: Chain) returns (r: Outcome<Node>)
      requires Holds(ScopeBag(s))
      modifies this`counts
      ensures Gains(Got(r))
      ensures Means(r, Done(Ok(Closure(param, body, DenoteScope(s, old(Now()))))), Now())
    {
      hide ScopeBag, DenoteScope;
      Retain(ScopeBag(s));
      return Done(Ok(LambdaIn(param, body, s)));
    }

    method EvaluateIntrinsic(v: Value, s: Chain) returns (r: Outcome<Node>)
      requires Holds(ScopeBag(s)) && v.Intrinsic?
      modifies this`counts, child.table
      ensures Gains(Got(r))
      ensures Means(r, Done(EvalIntrinsic(child.rt, v.uri, v.fixed, v.meta, DenoteScope(s, old(Now())))), Now())
    {
      hide ScopeBag, DenoteScope, CheckWellFormed;
      var bad := CheckWellFormed(child.rt, v.uri, v.fixed);
      if bad.Some? {
        HasGainsNothing(State(), ScopeBag(s));
        return Done(Err(bad.value));
      }
      if child.rt.kind(v.uri).ControlFlow? {
        Retain(ScopeBag(s));
        return Done(Ok(OperatorIn(child.rt.kind(v.uri).op, v.fixed, s)));
      }
      r := CreateEmbedded(v);
    }

    method EvaluateCall(n: nat, fn: Value, argument: Option<Value>, s: Chain) returns (r: Outcome<Node>)
      requires Holds(ScopeBag(s))
      modifies this`counts, child.table
      ensures Gains(Got(r))
      ensures Means(r, Eval(child.rt, n + 1, Call(fn, argument, NO_META), DenoteScope(s, old(Now()))), Now())
      decreases n, 2, 0
    {
      hide Has, Gained, Dropped, Bound, Bag, ScopeBag, Denote, DenoteScope, Apply;
      ghost var s0 := State();
      var f :- Evaluate(n, fn, s);
      ghost var s1 := State();
      SameScope(s, s0, s1, Bag(f));
      HasGained(s0, s1, Bag(f));
      r := CallOnValue(n, f, argument, s);
      Discard(s0, s1, f, r,
        Eval(child.rt, n + 1, Call(fn, argument, NO_META), DenoteScope(s, s0.futures)));
    }

    /** The rest of a call whose function is there: evaluate the argument, and call. */
    method CallOnValue(n: nat, f: Node, argument: Option<Value>, s: Chain) returns (r: Outcome<Node>)
      requires Holds(ScopeBag(s)) && Holds(Bag(f))
      modifies this`counts, child.table
      ensures Gains(Got(r))
      ensures Means(r, (var a :- EvalArgument(child.rt, n, argument, DenoteScope(s, old(Now())));
        Apply(child.rt, n, Denote(f, old(Now())), a)), Now())
      decreases n, 1, 0
    {
      hide Has, Gained, Dropped, Bound, Bag, ScopeBag, Denote, DenoteScope, Apply;
      ghost var s0 := State();
      if argument.None? {
        HasNothing(s0, Bag(f));
        r := CreateCall(n, f, None);
        return;
      }
      var x :- Evaluate(n, argument.value, s);
      ghost var s1 := State();
      SameNode(f, s0, s1, Bag(x));
      HasGained(s0, s1, Bag(x));
      r := CreateCall(n, f, Some(x));
      Discard(s0, s1, x, r,
        Apply(child.rt, n, Denote(f, s0.futures), Some(Denote(x, s1.futures))));
    }

    method EvaluateSelection(n: nat, source: Value, index: nat, s: Chain) returns (r: Outcome<Node>)
      requires Holds(ScopeBag(s))
      modifies this`counts, child.table
      ensures Gains(Got(r))
      ensures Means(r, (var x :- Eval(child.rt, n, source, DenoteScope(s, old(Now()))); Done(Selection(x, index))), Now())
      decreases n, 1, 0
    {
      hide Has, Gained, Dropped, Bound, Bag, ScopeBag, Denote, DenoteScope, Eval, Selection;
      ghost var s0 := State();
      var x :- Evaluate(n, source, s);
      ghost var s1 := State();
      HasGained(s0, s1, Bag(x));
      r := CreateSelection(x, index);
      Discard(s0, s1, x, r, Done(Selection(Denote(x, s1.futures), index)));
    }

    method EvaluateStruct(n: nat, elements: seq<Value>, s: Chain) returns (r: Outcome<seq<Node>>)
      requires Holds(ScopeBag(s))
      modifies this`counts, child.table
      ensures Gains(GotAll(r)) && MeanAll(r, EvalAll(child.rt, n, elements, DenoteScope(s, old(Now()))), Now())
      decreases n, 1, 0
    {
      hide Has, Gained, Dropped, Bound, AllBound, Bag, ScopeBag, Denote, DenoteAll, DenoteScope, Eval;
      ghost var s0 := State();
      ghost var scope := DenoteScope(s, s0.futures);
      var xs: seq<Node> := [];
      HasGainsNothing(s0, ScopeBag(s));
      FollowedEnds(EvalAll(child.rt, n, elements, scope));
      assert elements[0..] == elements;
      for i := 0 to |elements|
        invariant Gains(BagAll(xs))
        invariant EvalAll(child.rt, n, elements, scope) ==
          Followed(DenoteAll(xs, Now()), EvalAll(child.rt, n, elements[i..], scope))
      {
        ghost var s1 := State();
        SameScope(s, s0, s1, BagAll(xs));
        HasGained(s0, s1, BagAll(xs));
        assert elements[i..][1..] == elements[i + 1..];
        var y := Evaluate(n, elements[i], s);
        ghost var s2 := State();
        if y.IsFailure() {
          AbandonNodes(s0, s1, xs);
          return y.PropagateFailure();
        }
        var x := y.result.value;
        GainElement(s0, s1, s2, xs, x);
        FollowedStep(DenoteAll(xs, s1.futures), Denote(x, s2.futures), EvalAll(child.rt, n, elements[i + 1..], scope));
        xs := xs + [x];
      }
      HasGained(s0, State(), BagAll(xs));
      HasAllBound(xs, State());
      assert DenoteAll(xs, Now()) + [] == DenoteAll(xs, Now());
      return Done(Ok(xs));
    }

    method EvaluateBlock(n: nat, locals: seq<Local>, result: Value, s: Chain) returns (r: Outcome<Node>)
      requires Holds(ScopeBag(s))
      modifies this`counts, child.table
      ensures Gains(Got(r)) && Means(r, EvalBlock(child.rt, n, locals, result, DenoteScope(s, old(Now()))), Now())
      decreases n, 1, 0
    {
      hide Has, Gained, Dropped, Bound, Bag, ScopeBag, Denote, DenoteScope, Eval;
      ghost var s0 := State();
      ghost var scope := DenoteScope(s, s0.futures);
      var current := s;
      Retain(ScopeBag(s));
      assert locals[0..] == locals;
      for i := 0 to |locals|
        invariant Gains(ScopeBag(current))
        invariant EvalBlock(child.rt, n, locals, result, scope) ==
          EvalBlock(child.rt, n, locals[i..], result, DenoteScope(current, Now()))
      {
        ghost var s1 := State();
        HasGained(s0, s1, ScopeBag(current));
        assert locals[i..][1..] == locals[i + 1..];
        var x := Evaluate(n, locals[i].value, current);
        ghost var s2 := State();
        if x.IsFailure() {
          AbandonScope(s0, s1, current);
          return x;
        }
        GainLink(s0, s1, s2, current, locals[i].name, x.result.value);
        current := Link(locals[i].name, x.result.value, current);
      }
      ghost var s3 := State();
      HasGained(s0, s3, ScopeBag(current));
      r := Evaluate(n, result, current);
      DiscardScope(s0, s3, current, r, EvalBlock(child.rt, n, locals, result, scope));
    }

    method CreateSelection(x: Node, index: nat) returns (r: Outcome<Node>)
      requires Holds(Bag(x))
      modifies this`counts, child.table
      ensures Gains(Got(r)) && Means(r, Done(Selection(Denote(x, old(Now())), index)), Now())
    {
      ghost var s0 := State();
      match x
      case ChildId(source) =>
        HasId(s0, source);
        r := SelectInChild(source, index);
      case Parts(elements) =>
        if index >= |elements| {
          HasGainsNothing(s0, Bag(x));
          return Done(Err(NotFound));
        }
        HasElement(elements, index, s0);
        Retain(Bag(elements[index]));
        return Done(Ok(elements[index]));
      case _ =>
        HasGainsNothing(s0, Bag(x));
        return Done(Err(InvalidArgument));
    }

    method SelectInChild(source: nat, index: nat) returns (r: Outcome<Node>)
      requires Valid() && source in Now()
      modifies this`counts, child.table
      ensures Gains(Got(r)) && Means(r, Done(Ok(Embedded(ChildSelect(old(Now())[source], index)))), Now())
    {
      var id := child.CreateSelection(source, index);
      counts := counts + multiset{id.value};
      return Done(Ok(ChildId(id.value)));
    }

    // ----- calls -----

    method CreateCall(n: nat, f: Node, a: Option<Node>) returns (r: Outcome<Node>)
      requires Holds(Bag(f)) && Holds(ArgumentBag(a))
      modifies this`counts, child.table
      ensures Gains(Got(r))
      ensures Means(r, Apply(child.rt, n, Denote(f, old(Now())), DenoteArgument(a, old(Now()))), Now())
      decreases n, 0, 0
    {
      hide Has, Gained, Bound, ScopeBag, DenoteScope, Eval, Exec, EvalAll, ApplyEmbedded;
      ghost var s0 := State();
      HasGainsNothing(s0, Bag(f));
      if n == 0 {
        return OutOfFuel;
      }
      match f
      case ChildId(fn) =>
        HasId(s0, fn);
        r := CallChild(fn, a);
      case Parts(_) => return Done(Err(InvalidArgument));
      case LambdaIn(param, body, scope) => r := CallLambda(n - 1, param, body, a, scope);
      case OperatorIn(op, fixed, scope) => r := ExecuteCall(n - 1, op, fixed, a, scope);
    }

    /** The new scope refers to the argument and to the captured scope. */
    method CallLambda(n: nat, param: string, body: Value, a: Option<Node>, s: Chain) returns (r: Outcome<Node>)
      requires Holds(ScopeBag(s)) && Holds(ArgumentBag(a))
      modifies this`counts, child.table
      ensures Gains(Got(r))
      ensures Means(r, Apply(child.rt, n + 1, Closure(param, body, DenoteScope(s, old(Now()))),
        DenoteArgument(a, old(Now()))), Now())
      decreases n, 1, 0
    {
      hide Has, Gained, Dropped, Bound, Bag, ScopeBag, Denote, DenoteScope, Eval;
      if a.None? {
        r := Evaluate(n, body, s);
        return;
      }
      ghost var s0 := State();
      Retain(ScopeBag(s));
      ghost var s1 := State();
      SameArgument(a, s0, s1, ScopeBag(s));
      Retain(Bag(a.value));
      ghost var s2 := State();
      GainLink(s0, s1, s2, s, param, a.value);
      var newScope := Link(param, a.value, s);
      HasGained(s0, s2, ScopeBag(newScope));
      r := Evaluate(n, body, newScope);
      DiscardScope(s0, s2, newScope, r, Eval(child.rt, n, body, DenoteScope(newScope, s2.futures)));
    }

    /** A call of an embedded function: the slot of the argument is given back. */
    method CallChild(fn: nat, a: Option<Node>) returns (r: Outcome<Node>)
      requires Valid() && fn in Now() && Holds(ArgumentBag(a))
      modifies this`counts, child.table
      ensures Gains(Got(r))
      ensures Means(r, Done(ApplyEmbedded(child.rt, old(Now())[fn], DenoteArgument(a, old(Now())))), Now())
    {
      hide Denote, Evaluator.Embed, ChildCall, Gained;
      ghost var s0 := State();
      GainNothing(s0);
      if a.None? {
        var id := child.CreateCall(fn, None);
        return Done(Err(id.code));
      }
      var arg, slot := EmbedValue(a.value);
      if arg.Err? {
        return Done(Err(arg.code));
      }
      var id := child.CreateCall(fn, Some(arg.value));
      if slot.Some? {
        ReleaseAll([slot.value]);
      }
      r := Own(s0, id.value);
    }

    /** A value for a new id of the child. */
    method Own(ghost s0: Store, id: nat) returns (r: Outcome<Node>)
      requires child.Valid() && Consistent(s0) && s0.counts == counts
      requires id in Now() && id !in s0.futures && Now() == s0.futures[id := Now()[id]]
      modifies this`counts
      ensures child.Valid() && Now() == old(Now()) && Gained(s0, State(), Got(r))
      ensures r == Done(Ok(ChildId(id))) && Means(r, Done(Ok(Embedded(Now()[id]))), Now())
    {
      counts := counts + multiset{id};
      return Done(Ok(ChildId(id)));
    }

    // ----- the context of the control-flow handlers -----

    /** `CreateValue` of the context. */
    method CreateInContext(n: nat, v: Value, s: Chain) returns (r: Outcome<Node>)
      requires Holds(ScopeBag(s))
      modifies this`counts, child.table
      ensures Gains(Got(r)) && Means(r, Create(child.rt, n, v, DenoteScope(s, old(Now()))), Now())
      decreases n, 0, 1
    {
      hide Has, Gained, Bound, Bag, ScopeBag, Denote, DenoteScope, Eval;
      if v.NotSet? {
        HasGainsNothing(State(), ScopeBag(s));
        return Done(Err(Unimplemented));
      }
      r := Evaluate(n, v, s);
    }

    /** `CreateCall` and then `Materialize`. */
    method CallAndMaterialize(n: nat, f: Node, a: Option<Node>) returns (r: Outcome<(Node, Value)>)
      requires Holds(Bag(f)) && Holds(ArgumentBag(a))
      modifies this`counts, child.table
      ensures Gains(GotPair(r))
      ensures MeanPair(r, Ask(child.rt, n, Denote(f, old(Now())), DenoteArgument(a, old(Now()))), Now())
      decreases n, 0, 1
    {
      hide Has, Gained, Dropped, Bound, Bag, Denote, Apply, Evaluator.Materialize;
      ghost var s0 := State();
      var y :- CreateCall(n, f, a);
      ghost var s1 := State();
      HasGained(s0, s1, Bag(y));
      HasBound(y, s1);
      var d := MaterializeValue(y);
      if d.Err? {
        Release(y);
        GainBack(s0, s1, State(), Bag(y));
        return Done(Err(d.code));
      }
      return Done(Ok((y, d.value)));
    }

    /** The same where only the payload is of use: the executor ends as it began. */
    method CallForPayload(n: nat, f: Node, a: Option<Node>) returns (r: Outcome<Value>)
      requires Holds(Bag(f)) && Holds(ArgumentBag(a))
      modifies this`counts, child.table
      ensures child.Valid() && State() == old(State())
      ensures r == Answer(Ask(child.rt, n, Denote(f, old(Now())), DenoteArgument(a, old(Now()))))
      decreases n, 0, 2
    {
      hide Has, Gained, Dropped, Bound, Bag, Denote, Ask;
      ghost var s0 := State();
      var y := CallAndMaterialize(n, f, a);
      if y.IsFailure() {
        GainedIds(s0, State(), multiset{});
        return y.PropagateFailure();
      }
      ghost var s1 := State();
      HasGained(s0, s1, Bag(y.result.value.0));
      Release(y.result.value.0);
      GainBack(s0, s1, State(), Bag(y.result.value.0));
      return Done(Ok(y.result.value.1));
    }

    // ----- the control-flow handlers -----

    method ExecuteCall(n: nat, op: Op, fixed: Option<Value>, a: Option<Node>, s: Chain) returns (r: Outcome<Node>)
      requires Holds(ScopeBag(s)) && Holds(ArgumentBag(a))
      modifies this`counts, child.table
      ensures Gains(Got(r))
      ensures Means(r, Exec(child.rt, n, op, fixed, DenoteArgument(a, old(Now())), DenoteScope(s, old(Now()))), Now())
      decreases n, 3, 0
    {
      hide Has, Gained, Bound, Bag, ScopeBag, Denote, DenoteScope;
      hide FallbackFrom, ExecConditional, SerialFrom, BreakableFrom, ExecMap, Create, CreateAll;
      HasGainsNothing(State(), ScopeBag(s));
      match op
      case Fallback => r := ExecuteFallback(n, FixedElements(fixed), a, s);
      case Conditional =>
        if a.None? {
          return Done(Err(InvalidArgument));
        }
        r := ExecuteConditional(n, fixed, a.value, s);
      case SerialChain =>
        if a.None? {
          return Done(Err(MissingOptional));
        }
        r := ExecuteSerialChain(n, FixedElements(fixed), a.value, s);
      case BreakableChain =>
        if a.None? {
          return Done(Err(MissingOptional));
        }
        r := ExecuteBreakableChain(n, FixedElements(fixed), a.value, s);
      case ParallelMap =>
        if a.None? || fixed.None? {
          return Done(Err(MissingOptional));
        }
        r := ExecuteParallelMap(n, fixed.value, a.value, s);
      case Repeat => r := ExecuteRepeat(n, fixed, a, s);
      case While => r := ExecuteWhile(n, fixed, a, s);
      case RepeatedConditionalChain => r := ExecuteRepeatedConditionalChain(n, fixed, a, s);
    }

    /** One step of a chain: create the function, call it on `a`, and drop the function. */
    method CreateAndCall(n: nat, v: Value, a: Option<Node>, s: Chain) returns (r: Outcome<Node>)
      requires Holds(ScopeBag(s)) && Holds(ArgumentBag(a))
      modifies this`counts, child.table
      ensures Gains(Got(r))
      ensures Means(r, (var f :- Create(child.rt, n, v, DenoteScope(s, old(Now())));
        Apply(child.rt, n, f, DenoteArgument(a, old(Now())))), Now())
      decreases n, 0, 2
    {
      hide Has, Gained, Dropped, Bound, Bag, ScopeBag, Denote, DenoteScope, DenoteArgument, Create, Apply;
      ghost var s0 := State();
      var fn :- CreateInContext(n, v, s);
      ghost var s1 := State();
      SameArgument(a, s0, s1, Bag(fn));
      HasGained(s0, s1, Bag(fn));
      r := CreateCall(n, fn, a);
      Discard(s0, s1, fn, r,
        Apply(child.rt, n, Denote(fn, s1.futures), DenoteArgument(a, s0.futures)));
    }

    /** The same with the payload of the result. */
    method CreateAndAsk(n: nat, v: Value, a: Option<Node>, s: Chain) returns (r: Outcome<(Node, Value)>)
      requires Holds(ScopeBag(s)) && Holds(ArgumentBag(a))
      modifies this`counts, child.table
      ensures Gains(GotPair(r))
      ensures MeanPair(r, (var f :- Create(child.rt, n, v, DenoteScope(s, old(Now())));
        Ask(child.rt, n, f, DenoteArgument(a, old(Now())))), Now())
      decreases n, 0, 2
    {
      hide Has, Gained, Dropped, Bound, Bag, ScopeBag, Denote, DenoteScope, DenoteArgument, Create, Ask;
      ghost var s0 := State();
      var fn :- CreateInContext(n, v, s);
      ghost var s1 := State();
      SameArgument(a, s0, s1, Bag(fn));
      HasGained(s0, s1, Bag(fn));
      r := CallAndMaterialize(n, fn, a);
      DiscardPair(s0, s1, fn, r,
        Ask(child.rt, n, Denote(fn, s1.futures), DenoteArgument(a, s0.futures)));
    }

    method ExecuteSerialChain(n: nat, fns: seq<Value>, a: Node, s: Chain) returns (r: Outcome<Node>)
      requires Holds(ScopeBag(s)) && Holds(Bag(a))
      modifies this`counts, child.table
      ensures Gains(Got(r))
      ensures Means(r, SerialFrom(child.rt, n, fns, Denote(a, old(Now())), DenoteScope(s, old(Now()))), Now())
      decreases n, 1, 0
    {
      hide Has, Gained, Dropped, Bound, Bag, ScopeBag, Denote, DenoteScope, Create, Apply;
      ghost var s0 := State();
      ghost var scope := DenoteScope(s, s0.futures);
      var state := a;
      Retain(Bag(a));
      assert fns[0..] == fns;
      for i := 0 to |fns|
        invariant Gains(Bag(state))
        invariant SerialFrom(child.rt, n, fns, Denote(a, s0.futures), scope) ==
          SerialFrom(child.rt, n, fns[i..], Denote(state, Now()), scope)
      {
        ghost var s1 := State();
        SameScope(s, s0, s1, Bag(state));
        HasGained(s0, s1, Bag(state));
        assert fns[i..][1..] == fns[i + 1..];
        var next := CreateAndCall(n, fns[i], Some(state), s);
        Discard(s0, s1, state, next,
          (var f :- Create(child.rt, n, fns[i], scope); Apply(child.rt, n, f, Some(Denote(state, s1.futures)))));
        if next.IsFailure() {
          return next;
        }
        state := next.result.value;
      }
      HasGained(s0, State(), Bag(state));
      HasBound(state, State());
      return Done(Ok(state));
    }

    method ExecuteBreakableChain(n: nat, fns: seq<Value>, a: Node, s: Chain) returns (r: Outcome<Node>)
      requires Holds(ScopeBag(s)) && Holds(Bag(a))
      modifies this`counts, child.table
      ensures Gains(Got(r))
      ensures Means(r, BreakableFrom(child.rt, n, fns, Denote(a, old(Now())), DenoteScope(s, old(Now()))), Now())
      decreases n, 1, 0
    {
      hide Has, Gained, Dropped, Bound, Bag, ScopeBag, Denote, DenoteScope, BreakableStep, BreakableFrom;
      ghost var s0 := State();
      ghost var scope := DenoteScope(s, s0.futures);
      var state := a;
      Retain(Bag(a));
      assert fns[0..] == fns;
      for i := 0 to |fns|
        invariant Gains(Bag(state))
        invariant BreakableFrom(child.rt, n, fns, Denote(a, s0.futures), scope) ==
          BreakableFrom(child.rt, n, fns[i..], Denote(state, Now()), scope)
      {
        ghost var s1 := State();
        SameScope(s, s0, s1, Bag(state));
        HasGained(s0, s1, Bag(state));
        assert fns[i..][1..] == fns[i + 1..];
        BreakableUnfolds(child.rt, n, fns[i..], Denote(state, s1.futures), scope);
        var next := TryFunction(n, fns[i], state, s);
        DiscardPair(s0, s1, state, next,
          BreakableStep(child.rt, n, fns[i], Denote(state, s1.futures), scope));
        if next.IsFailure() {
          return next.PropagateFailure();
        }
        state := next.result.value.0;
        if next.result.value.1 {
          return Done(Ok(state));
        }
      }
      BreakableUnfolds(child.rt, n, [], Denote(state, Now()), scope);
      HasGained(s0, State(), Bag(state));
      HasBound(state, State());
      return Done(Ok(state));
    }

    /** The body of the loop: `state` after it, and whether it breaks. */
    method TryFunction(n: nat, v: Value, state: Node, s: Chain) returns (r: Outcome<(Node, bool)>)
      requires Holds(ScopeBag(s)) && Holds(Bag(state))
      modifies this`counts, child.table
      ensures Gains(GotPair(r))
      ensures MeanPair(r, BreakableStep(child.rt, n, v, Denote(state, old(Now())), DenoteScope(s, old(Now()))), Now())
      decreases n, 0, 3
    {
      hide Has, Gained, Dropped, Bound, Bag, ScopeBag, Denote, DenoteScope, Create, Ask;
      ghost var s0 := State();
      var next :- CreateAndAsk(n, v, Some(state), s);
      if !IsBoolean(next.1) {
        return Done(Ok((next.0, false)));
      }
      ghost var s1 := State();
      HasGained(s0, s1, Bag(next.0));
      Release(next.0);
      GainBack(s0, s1, State(), Bag(next.0));
      HasBound(state, s0);
      Retain(Bag(state));
      return Done(Ok((state, BooleanOf(next.1))));
    }

    method ExecuteConditional(n: nat, fixed: Option<Value>, a: Node, s: Chain) returns (r: Outcome<Node>)
      requires Holds(ScopeBag(s)) && Holds(Bag(a))
      modifies this`counts, child.table
      ensures Gains(Got(r))
      ensures Means(r, ExecConditional(child.rt, n, fixed, Denote(a, old(Now())), DenoteScope(s, old(Now()))), Now())
      decreases n, 2, 0
    {
      hide Has, Gained, Bound, Bag, ScopeBag, Denote, DenoteScope, Create, Evaluator.Materialize;
      ghost var s0 := State();
      HasBound(a, s0);
      HasGainsNothing(s0, Bag(a));
      var condition := MaterializeValue(a);
      if condition.Err? {
        return Done(Err(condition.code));
      }
      if !IsBoolean(condition.value) {
        return Done(Err(InvalidArgument));
      }
      r := CreateInContext(n, if BooleanOf(condition.value) then FixedAt(fixed, 0) else FixedAt(fixed, 1), s);
    }

    method TryCandidate(n: nat, v: Value, a: Option<Node>, s: Chain) returns (r: Outcome<Node>)
      requires Holds(ScopeBag(s)) && Holds(ArgumentBag(a))
      modifies this`counts, child.table
      ensures Gains(Got(r))
      ensures Means(r, Candidate(child.rt, n, v, DenoteArgument(a, old(Now())), DenoteScope(s, old(Now()))), Now())
      decreases n, 1, 0
    {
      hide Has, Gained, Bound, Bag, ScopeBag, Denote, DenoteScope, Create, Ask;
      var result :- CreateAndAsk(n, v, a, s);
      return Done(Ok(result.0));
    }

    method ExecuteFallback(n: nat, fns: seq<Value>, a: Option<Node>, s: Chain) returns (r: Outcome<Node>)
      requires Holds(ScopeBag(s)) && Holds(ArgumentBag(a))
      modifies this`counts, child.table
      ensures Gains(Got(r))
      ensures Means(r, FallbackFrom(child.rt, n, fns, DenoteArgument(a, old(Now())), Unavailable,
        DenoteScope(s, old(Now()))), Now())
      decreases n, 2, 0
    {
      hide Has, Gained, Bound, Bag, ScopeBag, Denote, DenoteScope, DenoteArgument, Candidate;
      ghost var s0 := State();
      HasGainsNothing(s0, ScopeBag(s));
      ghost var scope, arg := DenoteScope(s, s0.futures), DenoteArgument(a, s0.futures);
      var error := Unavailable;
      assert fns[0..] == fns;
      for i := 0 to |fns|
        invariant child.Valid() && State() == s0
        invariant FallbackFrom(child.rt, n, fns, arg, Unavailable, scope) ==
          FallbackFrom(child.rt, n, fns[i..], arg, error, scope)
      {
        assert fns[i..][1..] == fns[i + 1..];
        var result := TryCandidate(n, fns[i], a, s);
        if result.OutOfFuel? || result.result.Ok? {
          return result;
        }
        GainedIds(s0, State(), multiset{});
        error := result.result.code;
      }
      return Done(Err(error));
    }

    method ExecuteParallelMap(n: nat, fn: Value, a: Node, s: Chain) returns (r: Outcome<Node>)
      requires Holds(ScopeBag(s)) && Holds(Bag(a))
      modifies this`counts, child.table
      ensures Gains(Got(r))
      ensures Means(r, ExecMap(child.rt, n, fn, Denote(a, old(Now())), DenoteScope(s, old(Now()))), Now())
      decreases n, 2, 1
    {
      hide Has, Gained, Bound, Bag, ScopeBag, Denote, DenoteScope, Create, MapFrom, Evaluator.Materialize;
      HasBound(a, State());
      HasGainsNothing(State(), Bag(a));
      var args := MaterializeValue(a);
      if args.Err? {
        return Done(Err(args.code));
      }
      r := MapOver(n, fn, ElementsOf(args.value), s);
    }

    /** The rest of the map, once its argument is materialised. */
    method MapOver(n: nat, fn: Value, ds: seq<Value>, s: Chain) returns (r: Outcome<Node>)
      requires Holds(ScopeBag(s))
      modifies this`counts, child.table
      ensures Gains(Got(r))
      ensures Means(r, (var f :- Create(child.rt, n, fn, DenoteScope(s, old(Now())));
        var ys :- MapFrom(child.rt, n, f, ds, DenoteScope(s, old(Now())));
        Done(Ok(Structure(ys)))), Now())
      decreases n, 2, 0
    {
      hide Has, Gained, Dropped, Bound, AllBound, Bag, BagAll, ScopeBag, Denote, DenoteAll, DenoteScope, Create, MapFrom;
      ghost var s0 := State();
      var f :- CreateInContext(n, fn, s);
      ghost var s1 := State();
      SameScope(s, s0, s1, Bag(f));
      HasGained(s0, s1, Bag(f));
      var results := MapElements(n, f, ds, s);
      ghost var s2 := State();
      HasStill(s1, s2, GotAll(results), Bag(f));
      Release(f);
      AllOutlive(s0, s1, s2, State(), Bag(f), results,
        MapFrom(child.rt, n, Denote(f, s1.futures), ds, DenoteScope(s, s0.futures)));
      if results.IsFailure() {
        return results.PropagateFailure();
      }
      PartsBag(results.result.value, Now());
      return Done(Ok(Parts(results.result.value)));
    }

    /** One element of the map: create it, call `f` on it, and drop it. */
    method CallOnElement(n: nat, f: Node, d: Value, s: Chain) returns (r: Outcome<Node>)
      requires Holds(ScopeBag(s)) && Holds(Bag(f))
      modifies this`counts, child.table
      ensures Gains(Got(r))
      ensures Means(r, OnElement(child.rt, n, Denote(f, old(Now())), d, DenoteScope(s, old(Now()))), Now())
      decreases n, 0, 2
    {
      hide Has, Gained, Dropped, Bound, Bag, ScopeBag, Denote, DenoteScope, Create, Apply;
      ghost var s0 := State();
      var x :- CreateInContext(n, d, s);
      ghost var s1 := State();
      SameNode(f, s0, s1, Bag(x));
      HasGained(s0, s1, Bag(x));
      r := CreateCall(n, f, Some(x));
      Discard(s0, s1, x, r,
        Apply(child.rt, n, Denote(f, s0.futures), Some(Denote(x, s1.futures))));
    }

    method MapElements(n: nat, f: Node, ds: seq<Value>, s: Chain) returns (r: Outcome<seq<Node>>)
      requires Holds(ScopeBag(s)) && Holds(Bag(f))
      modifies this`counts, child.table
      ensures Gains(GotAll(r))
      ensures MeanAll(r, MapFrom(child.rt, n, Denote(f, old(Now())), ds, DenoteScope(s, old(Now()))), Now())
      decreases n, 1, 0
    {
      hide Has, Gained, Dropped, Bound, AllBound, Bag, ScopeBag, Denote, DenoteAll, DenoteScope, OnElement, MapFrom;
      ghost var s0 := State();
      ghost var scope, g := DenoteScope(s, s0.futures), Denote(f, s0.futures);
      var results: seq<Node> := [];
      HasGainsNothing(s0, ScopeBag(s));
      FollowedEnds(MapFrom(child.rt, n, g, ds, scope));
      MapUnfolds(child.rt, n, g, [], scope);
      assert ds[0..] == ds;
      for i := 0 to |ds|
        invariant Gains(BagAll(results))
        invariant MapFrom(child.rt, n, g, ds, scope) ==
          Followed(DenoteAll(results, Now()), MapFrom(child.rt, n, g, ds[i..], scope))
      {
        ghost var s1 := State();
        SameScope(s, s0, s1, BagAll(results));
        SameNode(f, s0, s1, BagAll(results));
        HasGained(s0, s1, BagAll(results));
        assert ds[i..][1..] == ds[i + 1..];
        MapUnfolds(child.rt, n, g, ds[i..], scope);
        var y := CallOnElement(n, f, ds[i], s);
        ghost var s2 := State();
        if y.IsFailure() {
          AbandonNodes(s0, s1, results);
          return y.PropagateFailure();
        }
        var x := y.result.value;
        GainElement(s0, s1, s2, results, x);
        FollowedStep(DenoteAll(results, s1.futures), Denote(x, s2.futures), MapFrom(child.rt, n, g, ds[i + 1..], scope));
        results := results + [x];
      }
      HasGained(s0, State(), BagAll(results));
      HasAllBound(results, State());
      assert DenoteAll(results, Now()) + [] == DenoteAll(results, Now());
      return Done(Ok(results));
    }

    method ExecuteRepeat(n: nat, fixed: Option<Value>, a: Option<Node>, s: Chain) returns (r: Outcome<Node>)
      requires Holds(ScopeBag(s)) && Holds(ArgumentBag(a))
      modifies this`counts, child.table
      ensures Gains(Got(r))
      ensures Means(r, Exec(child.rt, n, Repeat, fixed, DenoteArgument(a, old(Now())), DenoteScope(s, old(Now()))), Now())
      decreases n, 2, 0
    {
      hide Has, Gained, Dropped, Bound, Bag, ScopeBag, Denote, DenoteScope, Create, RepeatFrom;
      ghost var s0 := State();
      var body :- CreateInContext(n, FixedAt(fixed, 1), s);
      ghost var s1 := State();
      HasGained(s0, s1, Bag(body));
      if a.None? {
        Release(body);
        GainBack(s0, s1, State(), Bag(body));
        return Done(Err(MissingOptional));
      }
      SameArgument(a, s0, s1, Bag(body));
      r := RepeatBody(n, body, Int32Of(FixedAt(fixed, 0)), a.value);
      Discard(s0, s1, body, r,
        RepeatFrom(child.rt, n, Denote(body, s1.futures), Int32Of(FixedAt(fixed, 0)), Denote(a.value, s0.futures)));
    }

    method RepeatBody(n: nat, body: Node, numSteps: int, a: Node) returns (r: Outcome<Node>)
      requires Holds(Bag(body)) && Holds(Bag(a))
      modifies this`counts, child.table
      ensures Gains(Got(r))
      ensures Means(r, RepeatFrom(child.rt, n, Denote(body, old(Now())), numSteps, Denote(a, old(Now()))), Now())
      decreases n, 1, 0
    {
      hide Has, Gained, Dropped, Bound, Bag, Denote, Apply;
      ghost var s0 := State();
      ghost var f := Denote(body, s0.futures);
      var state := a;
      Retain(Bag(a));
      var i := 0;
      while i < numSteps
        invariant 0 <= i && (i <= numSteps || numSteps < 0)
        invariant Gains(Bag(state))
        invariant RepeatFrom(child.rt, n, f, numSteps, Denote(a, s0.futures)) ==
          RepeatFrom(child.rt, n, f, numSteps - i, Denote(state, Now()))
      {
        ghost var s1 := State();
        SameNode(body, s0, s1, Bag(state));
        HasGained(s0, s1, Bag(state));
        var next := CreateCall(n, body, Some(state));
        Discard(s0, s1, state, next, Apply(child.rt, n, f, Some(Denote(state, s1.futures))));
        if next.IsFailure() {
          return next;
        }
        state := next.result.value;
        i := i + 1;
      }
      HasGained(s0, State(), Bag(state));
      HasBound(state, State());
      return Done(Ok(state));
    }

    method ExecuteWhile(n: nat, fixed: Option<Value>, a: Option<Node>, s: Chain) returns (r: Outcome<Node>)
      requires Holds(ScopeBag(s)) && Holds(ArgumentBag(a))
      modifies this`counts, child.table
      ensures Gains(Got(r))
      ensures Means(r, Exec(child.rt, n, While, fixed, DenoteArgument(a, old(Now())), DenoteScope(s, old(Now()))), Now())
      decreases n, 2, 1
    {
      hide Has, Gained, Dropped, Bound, Bag, ScopeBag, Denote, DenoteScope, Create, WhileFrom;
      ghost var s0 := State();
      var condition :- CreateInContext(n, FixedAt(fixed, 0), s);
      ghost var s1 := State();
      SameScope(s, s0, s1, Bag(condition));
      SameArgument(a, s0, s1, Bag(condition));
      HasGained(s0, s1, Bag(condition));
      r := WhileCondition(n, condition, FixedAt(fixed, 1), a, s);
      Discard(s0, s1, condition, r,
        Exec(child.rt, n, While, fixed, DenoteArgument(a, s0.futures), DenoteScope(s, s0.futures)));
    }

    /** The rest of `While`, once its condition is there. */
    method WhileCondition(n: nat, condition: Node, bodyFn: Value, a: Option<Node>, s: Chain) returns (r: Outcome<Node>)
      requires Holds(Bag(condition)) && Holds(ScopeBag(s)) && Holds(ArgumentBag(a))
      modifies this`counts, child.table
      ensures Gains(Got(r))
      ensures Means(r, (var f :- Create(child.rt, n, bodyFn, DenoteScope(s, old(Now())));
        if a.None? then Done(Err(MissingOptional))
        else WhileFrom(child.rt, n, Denote(condition, old(Now())), f, Denote(a.value, old(Now())))), Now())
      decreases n, 2, 0
    {
      hide Has, Gained, Dropped, Bound, Bag, ScopeBag, Denote, DenoteScope, Create, WhileFrom;
      ghost var s0 := State();
      var body :- CreateInContext(n, bodyFn, s);
      ghost var s1 := State();
      HasGained(s0, s1, Bag(body));
      if a.None? {
        Release(body);
        GainBack(s0, s1, State(), Bag(body));
        return Done(Err(MissingOptional));
      }
      SameNode(condition, s0, s1, Bag(body));
      SameArgument(a, s0, s1, Bag(body));
      r := LoopWhile(n, condition, body, a.value);
      Discard(s0, s1, body, r,
        WhileFrom(child.rt, n, Denote(condition, s0.futures), Denote(body, s1.futures), Denote(a.value, s0.futures)));
    }

    method LoopWhile(n: nat, condition: Node, body: Node, a: Node) returns (r: Outcome<Node>)
      requires Holds(Bag(condition)) && Holds(Bag(body)) && Holds(Bag(a))
      modifies this`counts, child.table
      ensures Gains(Got(r))
      ensures Means(r, WhileFrom(child.rt, n, Denote(condition, old(Now())), Denote(body, old(Now())),
        Denote(a, old(Now()))), Now())
      decreases n, 1, 0
    {
      hide Has, Gained, Dropped, Bound, Bag, Denote, WhileStep, WhileFrom;
      ghost var s0 := State();
      ghost var c, f := Denote(condition, s0.futures), Denote(body, s0.futures);
      var state := a;
      Retain(Bag(a));
      var fuel: nat := n;
      while fuel > 0
        invariant Gains(Bag(state)) && 0 <= fuel <= n
        invariant WhileFrom(child.rt, n, c, f, Denote(a, s0.futures)) ==
          WhileFrom(child.rt, fuel, c, f, Denote(state, Now()))
      {
        ghost var s1 := State();
        SameNode(condition, s0, s1, Bag(state));
        SameNode(body, s0, s1, Bag(state));
        HasGained(s0, s1, Bag(state));
        WhileUnfolds(child.rt, fuel, c, f, Denote(state, s1.futures));
        fuel := fuel - 1;
        var next := RunOnce(fuel, condition, body, state);
        DiscardPair(s0, s1, state, next, WhileStep(child.rt, fuel, c, f, Denote(state, s1.futures)));
        if next.IsFailure() {
          return next.PropagateFailure();
        }
        state := next.result.value.0;
        if next.result.value.1 {
          return Done(Ok(state));
        }
      }
      ghost var s3 := State();
      WhileNoFuel(child.rt, c, f, Denote(state, s3.futures));
      HasGained(s0, s3, Bag(state));
      Release(state);
      GainBack(s0, s3, State(), Bag(state));
      return OutOfFuel;
    }

    /** The body of the loop: `state` after it, and whether the condition was false. */
    method RunOnce(n: nat, condition: Node, body: Node, state: Node) returns (r: Outcome<(Node, bool)>)
      requires Holds(Bag(condition)) && Holds(Bag(body)) && Holds(Bag(state))
      modifies this`counts, child.table
      ensures Gains(GotPair(r))
      ensures MeanPair(r, WhileStep(child.rt, n, Denote(condition, old(Now())), Denote(body, old(Now())),
        Denote(state, old(Now()))), Now())
      decreases n, 0, 3
    {
      hide Has, Gained, Bound, Bag, Denote, Apply, Ask, Answer;
      ghost var s0 := State();
      HasGainsNothing(s0, Bag(state));
      var answer := CallForPayload(n, condition, Some(state));
      if answer.IsFailure() {
        return answer.PropagateFailure();
      }
      if !IsBoolean(answer.result.value) {
        return Done(Err(InvalidArgument));
      }
      if !BooleanOf(answer.result.value) {
        HasBound(state, s0);
        Retain(Bag(state));
        return Done(Ok((state, true)));
      }
      var next :- CreateCall(n, body, Some(state));
      return Done(Ok((next, false)));
    }

    method ExecuteRepeatedConditionalChain(n: nat, fixed: Option<Value>, a: Option<Node>, s: Chain) returns (r: Outcome<Node>)
      requires Holds(ScopeBag(s)) && Holds(ArgumentBag(a))
      modifies this`counts, child.table
      ensures Gains(Got(r))
      ensures Means(r, Exec(child.rt, n, RepeatedConditionalChain, fixed, DenoteArgument(a, old(Now())),
        DenoteScope(s, old(Now()))), Now())
      decreases n, 2, 1
    {
      hide Has, Gained, Dropped, Bound, AllBound, Bag, BagAll, ScopeBag, Denote, DenoteAll, DenoteScope, CreateAll, RoundsFrom;
      ghost var s0 := State();
      var params := FixedElements(fixed);
      var fns :- CreateFunctions(n, if params == [] then [] else params[1..], s);
      ghost var s1 := State();
      HasGained(s0, s1, BagAll(fns));
      if a.None? {
        ReleaseNodes(fns);
        GainBack(s0, s1, State(), BagAll(fns));
        return Done(Err(MissingOptional));
      }
      SameArgument(a, s0, s1, BagAll(fns));
      SameScope(s, s0, s1, BagAll(fns));
      r := RunRounds(n, Int32Of(FixedAt(fixed, 0)), fns, a.value, s);
      DiscardNodes(s0, s1, fns, r,
        RoundsFrom(child.rt, n, Int32Of(FixedAt(fixed, 0)), DenoteAll(fns, s1.futures), Denote(a.value, s0.futures),
          DenoteScope(s, s0.futures)));
    }

    method CreateFunctions(n: nat, vs: seq<Value>, s: Chain) returns (r: Outcome<seq<Node>>)
      requires Holds(ScopeBag(s))
      modifies this`counts, child.table
      ensures Gains(GotAll(r)) && MeanAll(r, CreateAll(child.rt, n, vs, DenoteScope(s, old(Now()))), Now())
      decreases n, 1, 0
    {
      hide Has, Gained, Dropped, Bound, AllBound, Bag, ScopeBag, Denote, DenoteAll, DenoteScope, Create;
      ghost var s0 := State();
      ghost var scope := DenoteScope(s, s0.futures);
      var xs: seq<Node> := [];
      HasGainsNothing(s0, ScopeBag(s));
      FollowedEnds(CreateAll(child.rt, n, vs, scope));
      assert vs[0..] == vs;
      for i := 0 to |vs|
        invariant Gains(BagAll(xs))
        invariant CreateAll(child.rt, n, vs, scope) ==
          Followed(DenoteAll(xs, Now()), CreateAll(child.rt, n, vs[i..], scope))
      {
        ghost var s1 := State();
        SameScope(s, s0, s1, BagAll(xs));
        HasGained(s0, s1, BagAll(xs));
        assert vs[i..][1..] == vs[i + 1..];
        var y := CreateInContext(n, vs[i], s);
        ghost var s2 := State();
        if y.IsFailure() {
          AbandonNodes(s0, s1, xs);
          return y.PropagateFailure();
        }
        var x := y.result.value;
        GainElement(s0, s1, s2, xs, x);
        FollowedStep(DenoteAll(xs, s1.futures), Denote(x, s2.futures), CreateAll(child.rt, n, vs[i + 1..], scope));
        xs := xs + [x];
      }
      HasGained(s0, State(), BagAll(xs));
      HasAllBound(xs, State());
      assert DenoteAll(xs, Now()) + [] == DenoteAll(xs, Now());
      return Done(Ok(xs));
    }

    /** The outer loop. */
    method RunRounds(n: nat, numSteps: int, fns: seq<Node>, a: Node, s: Chain) returns (r: Outcome<Node>)
      requires Holds(ScopeBag(s)) && Holds(BagAll(fns)) && Holds(Bag(a))
      modifies this`counts, child.table
      ensures Gains(Got(r))
      ensures Means(r, RoundsFrom(child.rt, n, numSteps, DenoteAll(fns, old(Now())), Denote(a, old(Now())),
        DenoteScope(s, old(Now()))), Now())
      decreases n, 2, 0
    {
      hide Has, Gained, Dropped, Bound, AllBound, Bag, BagAll, ScopeBag, Denote, DenoteAll, DenoteScope, Round;
      ghost var s0 := State();
      ghost var scope, gs := DenoteScope(s, s0.futures), DenoteAll(fns, s0.futures);
      var state := a;
      Retain(Bag(a));
      var i := 0;
      while i < numSteps
        invariant 0 <= i && (i <= numSteps || numSteps < 0)
        invariant Gains(Bag(state))
        invariant RoundsFrom(child.rt, n, numSteps, gs, Denote(a, s0.futures), scope) ==
          RoundsFrom(child.rt, n, numSteps - i, gs, Denote(state, Now()), scope)
      {
        ghost var s1 := State();
        SameScope(s, s0, s1, Bag(state));
        SameAll(fns, s0, s1, Bag(state));
        HasGained(s0, s1, Bag(state));
        var round := RunRound(n, fns, state, s);
        DiscardPair(s0, s1, state, round,
          Round(child.rt, n, gs, Denote(state, s1.futures), scope));
        if round.IsFailure() {
          return round.PropagateFailure();
        }
        state := round.result.value.0;
        if round.result.value.1 {
          return Done(Ok(state));
        }
        i := i + 1;
      }
      HasGained(s0, State(), Bag(state));
      HasBound(state, State());
      return Done(Ok(state));
    }

    /** The inner loop: the state it ends in, and whether a function asked to break. */
    method RunRound(n: nat, fns: seq<Node>, a: Node, s: Chain) returns (r: Outcome<(Node, bool)>)
      requires Holds(ScopeBag(s)) && Holds(BagAll(fns)) && Holds(Bag(a))
      modifies this`counts, child.table
      ensures Gains(GotPair(r))
      ensures MeanPair(r, Round(child.rt, n, DenoteAll(fns, old(Now())), Denote(a, old(Now())),
        DenoteScope(s, old(Now()))), Now())
      decreases n, 1, 0
    {
      hide Has, Gained, Dropped, Bound, AllBound, Bag, BagAll, ScopeBag, Denote, DenoteScope, RoundStep, Round;
      ghost var s0 := State();
      ghost var scope, gs := DenoteScope(s, s0.futures), DenoteAll(fns, s0.futures);
      var state := a;
      Retain(Bag(a));
      assert gs[0..] == gs;
      for i := 0 to |fns|
        invariant Gains(Bag(state))
        invariant Round(child.rt, n, gs, Denote(a, s0.futures), scope) ==
          Round(child.rt, n, gs[i..], Denote(state, Now()), scope)
      {
        ghost var s1 := State();
        SameScope(s, s0, s1, Bag(state));
        SameAll(fns, s0, s1, Bag(state));
        HasElement(fns, i, s1);
        HasGained(s0, s1, Bag(state));
        assert gs[i..][1..] == gs[i + 1..] && gs[i..][0] == Denote(fns[i], s1.futures);
        RoundUnfolds(child.rt, n, gs[i..], Denote(state, s1.futures), scope);
        var next := RunFunction(n, fns[i], state, s);
        DiscardPair(s0, s1, state, next, RoundStep(child.rt, n, gs[i], Denote(state, s1.futures), scope));
        if next.IsFailure() {
          return next;
        }
        state := next.result.value.0;
        if next.result.value.1 {
          return Done(Ok((state, true)));
        }
      }
      RoundUnfolds(child.rt, n, [], Denote(state, Now()), scope);
      HasGained(s0, State(), Bag(state));
      HasBound(state, State());
      return Done(Ok((state, false)));
    }

    /** The body of the inner loop: `state` after it, and whether it breaks. */
    method RunFunction(n: nat, f: Node, state: Node, s: Chain) returns (r: Outcome<(Node, bool)>)
      requires Holds(ScopeBag(s)) && Holds(Bag(f)) && Holds(Bag(state))
      modifies this`counts, child.table
      ensures Gains(GotPair(r))
      ensures MeanPair(r, RoundStep(child.rt, n, Denote(f, old(Now())), Denote(state, old(Now())),
        DenoteScope(s, old(Now()))), Now())
      decreases n, 0, 3
    {
      hide Has, Gained, Bound, Bag, ScopeBag, Denote, DenoteScope, Create, Ask, Answer;
      ghost var s0 := State();
      HasGainsNothing(s0, Bag(state));
      var answer := CallForPayload(n, f, Some(state));
      if answer.IsFailure() {
        return answer.PropagateFailure();
      }
      if IsBoolean(answer.result.value) {
        HasBound(state, s0);
        Retain(Bag(state));
        return Done(Ok((state, BooleanOf(answer.result.value))));
      }
      var next :- CreateInContext(n, answer.result.value, s);
      return Done(Ok((next, false)));
    }
  }
}
