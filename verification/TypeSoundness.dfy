/** Type inference is sound for the evaluator. */
module TypeSoundness {
  import opened Common
  import opened Ir
  import opened Evaluator
  import opened Fuel
  import opened RoundTrip
  import opened Types

  /** An executor value of type `t`: data of that type, held locally or in the child. */
  ghost predicate OfType(x: XVal, t: Type)
    decreases x
  {
    match x
    case Embedded(future) => future.Ok? && IsData(future.value) && TypeFor(future.value) == Some(t)
    case Structure(xs) =>
      t.StructT? && |xs| == |t.elements| && forall i :: 0 <= i < |xs| ==> OfType(xs[i], t.elements[i])
    case Closure(_, _, _) => false
    case Operator(_, _, _) => false
  }

  lemma {:induction false} TypesForAt(vs: seq<Value>)
    ensures TypesFor(vs).Some? <==> forall i :: 0 <= i < |vs| ==> TypeFor(vs[i]).Some?
    ensures TypesFor(vs).Some? ==> forall i :: 0 <= i < |vs| ==> TypeFor(vs[i]) == Some(TypesFor(vs).value[i])
    decreases |vs|
  {
    if vs != [] {
      TypesForAt(vs[1..]);
      assert vs == [vs[0]] + vs[1..];
    }
  }

  lemma {:induction false} SelectionTyped(x: XVal, ts: seq<Type>, index: nat)
    requires OfType(x, StructT(ts)) && index < |ts|
    ensures Selection(x, index).Ok? && OfType(Selection(x, index).value, ts[index])
  {
    if x.Embedded? {
      assert IsData(x.future.value.elements[index]);
      TypesForAt(x.future.value.elements);
    }
  }

  /** A value that has a type evaluates in every scope, to a value of that type. */
  lemma {:induction false} TypedEvaluates(rt: Runtime, v: Value, s: Scope) returns (n: nat, x: XVal)
    requires TypeFor(v).Some?
    ensures Eval(rt, n, v, s) == Done(Ok(x)) && OfType(x, TypeFor(v).value)
    decreases v, 1
  {
    match v
    case Leaf(_, _) => n, x := 1, Embedded(Ok(v));
    case Struct(elements, _) =>
      var k, xs := TypedAllEvaluate(rt, elements, s);
      n, x := k + 1, Structure(xs);
    case Select(source, index, _) =>
      var k, y := TypedEvaluates(rt, source, s);
      SelectionTyped(y, TypeFor(source).value.elements, index);
      n, x := k + 1, Selection(y, index).value;
  }

  lemma {:induction false} TypedAllEvaluate(rt: Runtime, vs: seq<Value>, s: Scope) returns (n: nat, xs: seq<XVal>)
    requires TypesFor(vs).Some?
    ensures EvalAll(rt, n, vs, s) == Done(Ok(xs)) && OfType(Structure(xs), StructT(TypesFor(vs).value))
    decreases vs, 0
  {
    if vs == [] {
      n, xs := 0, [];
    } else {
      var k, x := TypedEvaluates(rt, vs[0], s);
      var l, rest := TypedAllEvaluate(rt, vs[1..], s);
      n, xs := if k < l then l else k, [x] + rest;
      EvalMono(rt, k, n, vs[0], s);
      EvalAllMono(rt, l, n, vs[1..], s);
    }
  }

  /** A value of type `t` materialises to data of type `t`. */
  lemma {:induction false} TypedMaterializes(x: XVal, t: Type)
    requires OfType(x, t)
    ensures Materialize(x).Ok? && IsData(Materialize(x).value) && TypeFor(Materialize(x).value) == Some(t)
  {
    if x.Structure? {
      forall i | 0 <= i < |x.elements|
        ensures Materialize(x.elements[i]).Ok? && IsData(Materialize(x.elements[i]).value)
        ensures TypeFor(Materialize(x.elements[i]).value) == Some(t.elements[i])
      {
        TypedMaterializes(x.elements[i], t.elements[i]);
      }
      MaterializeStructure(x.elements);
      TypesForAt(Payloads(x.elements));
      assert TypesFor(Payloads(x.elements)).value == t.elements;
    }
  }

  // ----- what it means for a payload to have a type -----

  /** The payload `d` is data of type `t`. */
  ghost predicate HasType(d: Value, t: Type) {
    match d
    case Leaf(Str(_), _) => t == ScalarT(StringType)
    case Leaf(Int32(_), _) => t == ScalarT(Int32Type)
    case Leaf(Boolean(_), _) => t == ScalarT(BoolType)
    case Struct(ds, _) => t.StructT? && |t.elements| == |ds| && forall i :: 0 <= i < |ds| ==> HasType(ds[i], t.elements[i])
    case _ => false
  }

  /** `v` evaluates, and its payload has type `t`. */
  ghost predicate GivesType(rt: Runtime, v: Value, s: Scope, t: Type) {
    exists n: nat, x, d :: Eval(rt, n, v, s) == Done(Ok(x)) && Materialize(x) == Ok(d) && HasType(d, t)
  }

  ghost predicate Typed(rt: Runtime, v: Value, s: Scope) {
    exists t :: GivesType(rt, v, s, t)
  }

  /** Every node of `v` is a leaf, a struct or a selection by an index that is not negative,
      and evaluates to a payload that has a type, which is the one it is annotated with, if
      any. */
  ghost predicate WellTyped(rt: Runtime, v: Value, s: Scope) {
    && Typed(rt, v, s)
    && (v.meta.ty.Some? ==> GivesType(rt, v, s, v.meta.ty.value))
    && match v
       case Leaf(_, _) => true
       case Struct(vs, _) => forall i :: 0 <= i < |vs| ==> WellTyped(rt, vs[i], s)
       case Select(source, index, _) => index >= 0 && WellTyped(rt, source, s)
       case _ => false
  }

  /** The reference definition types data as `HasType` does. */
  lemma {:induction false} DataTyped(d: Value, t: Type)
    requires IsData(d)
    ensures TypeFor(d) == Some(t) <==> HasType(d, t)
    decreases d
  {
    if d.Struct? {
      TypesForAt(d.elements);
      if t.StructT? && |t.elements| == |d.elements| {
        forall i | 0 <= i < |d.elements|
          ensures TypeFor(d.elements[i]) == Some(t.elements[i]) <==> HasType(d.elements[i], t.elements[i])
        {
          DataTyped(d.elements[i], t.elements[i]);
        }
        if HasType(d, t) {
          assert TypesFor(d.elements).value == t.elements;
        }
      }
    }
  }

  lemma {:induction false} HasTypeUnique(d: Value, t: Type, u: Type)
    requires HasType(d, t) && HasType(d, u)
    ensures t == u && IsData(d)
    decreases d
  {
    if d.Struct? {
      forall i | 0 <= i < |d.elements|
        ensures t.elements[i] == u.elements[i] && IsData(d.elements[i])
      {
        HasTypeUnique(d.elements[i], t.elements[i], u.elements[i]);
      }
    }
  }

  lemma GivesOneType(rt: Runtime, v: Value, s: Scope, t: Type, u: Type)
    requires GivesType(rt, v, s, t) && GivesType(rt, v, s, u)
    ensures t == u
  {
    hide Eval, Materialize, HasType;
    var n: nat, x, d :| Eval(rt, n, v, s) == Done(Ok(x)) && Materialize(x) == Ok(d) && HasType(d, t);
    var k: nat, y, e :| Eval(rt, k, v, s) == Done(Ok(y)) && Materialize(y) == Ok(e) && HasType(e, u);
    if n <= k { EvalMono(rt, n, k, v, s); } else { EvalMono(rt, k, n, v, s); }
    HasTypeUnique(d, t, u);
  }

  /** A value with a type gives exactly that type, in every scope. */
  lemma {:induction false} TypeForGives(rt: Runtime, v: Value, s: Scope, t: Type)
    requires TypeFor(v).Some?
    ensures GivesType(rt, v, s, t) <==> TypeFor(v) == Some(t)
  {
    hide Eval, Materialize, HasType, TypeFor, OfType;
    var u := TypeFor(v).value;
    var n, x := TypedEvaluates(rt, v, s);
    TypedMaterializes(x, u);
    DataTyped(Materialize(x).value, u);
    assert Materialize(x) == Ok(Materialize(x).value);
    assert GivesType(rt, v, s, u);
    if GivesType(rt, v, s, t) {
      GivesOneType(rt, v, s, t, u);
    }
  }

  lemma {:induction false} LeafGives(rt: Runtime, v: Value, s: Scope, t: Type)
    requires v.Leaf? && GivesType(rt, v, s, t)
    ensures TypeFor(v) == Some(t)
  {
    DataTyped(v, t);
  }

  /** A selection from a value with a type has a type when its payload does. */
  lemma {:induction false} SelectGives(rt: Runtime, v: Value, s: Scope, t: Type)
    requires v.Select? && v.index >= 0 && TypeFor(v.source).Some? && GivesType(rt, v, s, t)
    ensures TypeFor(v).Some?
  {
    hide HasType, Eval, Materialize, TypeFor, OfType, Selection;
    var k, y := TypedEvaluates(rt, v.source, s);
    var n: nat, x, d :| Eval(rt, n, v, s) == Done(Ok(x)) && Materialize(x) == Ok(d) && HasType(d, t);
    var l := if n < k + 1 then k + 1 else n;
    EvalMono(rt, n, l, v, s);
    EvalMono(rt, k, l - 1, v.source, s);
    SelectEval(rt, l, v, s, y);
    OutOfRangeFails(y, TypeFor(v.source).value, v.index);
    SelectTyped(v);
  }

  lemma {:induction false} SelectEval(rt: Runtime, n: nat, v: Value, s: Scope, y: XVal)
    requires v.Select? && v.index >= 0 && n > 0 && Eval(rt, n - 1, v.source, s) == Done(Ok(y))
    ensures Eval(rt, n, v, s) == Done(Selection(y, v.index))
  {
    hide Selection;
  }

  lemma {:induction false} SelectTyped(v: Value)
    requires v.Select? && TypeFor(v.source).Some? && TypeFor(v.source).value.StructT?
    requires 0 <= v.index < |TypeFor(v.source).value.elements|
    ensures TypeFor(v).Some?
  {
  }

  lemma {:induction false} OutOfRangeFails(y: XVal, t: Type, index: nat)
    requires OfType(y, t) && Selection(y, index).Ok? && Materialize(Selection(y, index).value).Ok?
    ensures t.StructT? && index < |t.elements|
  {
    if y.Embedded? && y.future.value.Struct? {
      TypesForAt(y.future.value.elements);
    }
  }

  /** The reference definition accepts exactly the well-typed values. */
  lemma {:induction false} WellTypedExact(rt: Runtime, v: Value, s: Scope)
    ensures WellTyped(rt, v, s) <==> TypeFor(v).Some? && Agrees(v)
    decreases v
  {
    hide GivesType;
    if TypeFor(v).Some? {
      forall t { TypeForGives(rt, v, s, t); }
      assert Typed(rt, v, s);
    }
    match v
    case Leaf(_, _) =>
      if Typed(rt, v, s) {
        var t :| GivesType(rt, v, s, t);
        LeafGives(rt, v, s, t);
      }
    case Struct(vs, _) =>
      TypesForAt(vs);
      forall i | 0 <= i < |vs|
        ensures WellTyped(rt, vs[i], s) <==> TypeFor(vs[i]).Some? && Agrees(vs[i])
      {
        WellTypedExact(rt, vs[i], s);
      }
    case Select(source, index, _) =>
      WellTypedExact(rt, source, s);
      if Typed(rt, v, s) && index >= 0 && TypeFor(source).Some? {
        var t :| GivesType(rt, v, s, t);
        SelectGives(rt, v, s, t);
      }
    case NotSet(_) =>
    case Ref(_, _) =>
    case Lambda(_, _, _) =>
    case Call(_, _, _) =>
    case Block(_, _, _) =>
    case Intrinsic(_, _, _) =>
  }

  /** Inference accepts exactly the values whose every node evaluates to a payload of a type,
      the annotated one if there is one; the inferred type is the type of the payload, and its
      only one. */
  lemma {:induction false} InferenceExact(rt: Runtime, v: Value, s: Scope)
    ensures Infer(v).1.Ok? <==> WellTyped(rt, v, s)
    ensures Infer(v).1.Ok? ==> forall t :: GivesType(rt, v, s, t) <==> t == TypeOf(Infer(v).0)
    ensures Infer(v).1.Ok? ==> WellTyped(rt, Infer(v).0, s) && Infer(v).0.meta.ty.Some?
  {
    hide GivesType, WellTyped, Infer, TypeFor, Agrees;
    InferExact(v);
    WellTypedExact(rt, v, s);
    if Infer(v).1.Ok? {
      WellTypedExact(rt, Infer(v).0, s);
      InferTwice(v);
      InferExact(Infer(v).0);
      forall t { TypeForGives(rt, v, s, t); }
    }
  }

  /** If inference accepts a value, its evaluation never fails, in any scope and whatever the
      bound; it ends, and the payload of its result has exactly the inferred type. */
  lemma {:induction false} InferenceSound(rt: Runtime, v: Value, s: Scope)
    requires Infer(v).1.Ok?
    ensures GivesType(rt, v, s, TypeOf(Infer(v).0))
    ensures forall t :: GivesType(rt, v, s, t) ==> t == TypeOf(Infer(v).0)
    ensures forall n: nat :: Eval(rt, n, v, s).Done? ==> Eval(rt, n, v, s).result.Ok?
  {
    hide GivesType, Infer, Agrees;
    InferExact(v);
    InferenceExact(rt, v, s);
    var n, x := TypedEvaluates(rt, v, s);
    forall k: nat | Eval(rt, k, v, s).Done?
      ensures Eval(rt, k, v, s).result.Ok?
    {
      if k <= n { EvalMono(rt, k, n, v, s); } else { EvalMono(rt, n, k, v, s); }
    }
  }
}
