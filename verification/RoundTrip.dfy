/** Data that goes in with `CreateValue` and comes out with `Materialize`. */
module RoundTrip {
  import opened Common
  import opened Ir
  import opened Evaluator
  import opened Fuel
  import opened Representation

  predicate IsData(v: Value) {
    v.NotSet? || v.Leaf? || (v.Struct? && forall i :: 0 <= i < |v.elements| ==> IsData(v.elements[i]))
  }

  /** Nothing is recorded on the struct nodes: no label, no mimetype, no type. */
  predicate Plain(v: Value) {
    v.Struct? ==> v.meta == NO_META && forall i :: 0 <= i < |v.elements| ==> Plain(v.elements[i])
  }

  /** What a round trip keeps: everything but the labels, mimetypes and types of structs. */
  function Norm(v: Value): Value {
    if v.Struct? then Struct(seq(|v.elements|, i requires 0 <= i < |v.elements| => Norm(v.elements[i])), NO_META)
    else v
  }

  /** How the control-flow executor holds data: structs locally, leaves in the child. */
  function LocalForm(v: Value): XVal {
    if v.Struct? then Structure(seq(|v.elements|, i requires 0 <= i < |v.elements| => LocalForm(v.elements[i])))
    else Embedded(Ok(v))
  }

  function LocalForms(vs: seq<Value>): seq<XVal> {
    seq(|vs|, i requires 0 <= i < |vs| => LocalForm(vs[i]))
  }

  lemma {:induction false} NormIdempotent(v: Value)
    ensures Norm(Norm(v)) == Norm(v)
    ensures Plain(v) <==> Norm(v) == v
    ensures IsData(v) ==> IsData(Norm(v))
  {
    if v.Struct? {
      forall i | 0 <= i < |v.elements|
        ensures Norm(Norm(v).elements[i]) == Norm(v).elements[i]
        ensures Plain(v.elements[i]) <==> Norm(v).elements[i] == v.elements[i]
        ensures IsData(v.elements[i]) ==> IsData(Norm(v).elements[i])
      {
        NormIdempotent(v.elements[i]);
      }
      assert Norm(v) == v ==> forall i :: 0 <= i < |v.elements| ==> Norm(v).elements[i] == v.elements[i];
      if Plain(v) {
        assert Norm(v).elements == v.elements;
      }
    }
  }

  lemma {:induction false} EvalData(rt: Runtime, d: Value, s: Scope) returns (n: nat)
    requires IsData(d)
    ensures Eval(rt, n, d, s) == Done(Ok(LocalForm(d)))
    decreases d, 1
  {
    if d.Struct? {
      var k := EvalAllData(rt, d.elements, s);
      assert LocalForms(d.elements) == LocalForm(d).elements;
      n := k + 1;
    } else {
      n := 1;
    }
  }

  lemma {:induction false} EvalAllData(rt: Runtime, ds: seq<Value>, s: Scope) returns (n: nat)
    requires forall i :: 0 <= i < |ds| ==> IsData(ds[i])
    ensures EvalAll(rt, n, ds, s) == Done(Ok(LocalForms(ds)))
    decreases ds, 0
  {
    if ds == [] {
      n := 0;
    } else {
      var k := EvalData(rt, ds[0], s);
      var l := EvalAllData(rt, ds[1..], s);
      n := if k < l then l else k;
      EvalMono(rt, k, n, ds[0], s);
      EvalAllMono(rt, l, n, ds[1..], s);
      assert LocalForms(ds) == [LocalForm(ds[0])] + LocalForms(ds[1..]);
    }
  }

  /** Whatever bound suffices, data evaluates to its local form. */
  lemma {:induction false} EvalDataOnly(rt: Runtime, n: nat, d: Value, s: Scope)
    requires IsData(d)
    ensures Eval(rt, n, d, s).OutOfFuel? || Eval(rt, n, d, s) == Done(Ok(LocalForm(d)))
  {
    var k := EvalData(rt, d, s);
    if Eval(rt, n, d, s).Done? {
      if n <= k { EvalMono(rt, n, k, d, s); } else { EvalMono(rt, k, n, d, s); }
    }
  }

  lemma {:induction false} EvalDataValue(rt: Runtime, n: nat, d: Value, s: Scope, x: XVal)
    requires IsData(d) && Eval(rt, n, d, s) == Done(Ok(x))
    ensures x == LocalForm(d)
  {
    EvalDataOnly(rt, n, d, s);
  }

  predicate AllMaterialize(xs: seq<XVal>) {
    forall i :: 0 <= i < |xs| ==> Materialize(xs[i]).Ok?
  }

  function Payloads(xs: seq<XVal>): seq<Value>
    requires AllMaterialize(xs)
  {
    seq(|xs|, i requires 0 <= i < |xs| => Materialize(xs[i]).value)
  }

  /** A struct of values materialises exactly when all of them do, to their payloads in
      order. */
  lemma MaterializeStructure(xs: seq<XVal>)
    ensures Materialize(Structure(xs)).Ok? <==> AllMaterialize(xs)
    ensures AllMaterialize(xs) ==> Materialize(Structure(xs)) == Ok(Struct(Payloads(xs), NO_META))
  {
    EmbedAllAt(xs);
    if EmbedAll(xs).Ok? {
      var fields := EmbedAll(xs).value;
      forall i | 0 <= i < |fields|
        ensures fields[i] == Materialize(xs[i])
      {
        assert Embed(xs[i]) == Ok(fields[i]);
      }
      MembersOk(fields);
      if AllOk(fields) {
        assert ChildMembers(fields).value == Payloads(xs);
      }
    }
  }

  lemma {:induction false} MaterializeLocalForm(d: Value)
    ensures Materialize(LocalForm(d)) == Ok(Norm(d))
  {
    if d.Struct? {
      var xs := LocalForm(d).elements;
      forall i | 0 <= i < |xs|
        ensures Materialize(xs[i]) == Ok(Norm(d.elements[i]))
      {
        MaterializeLocalForm(d.elements[i]);
      }
      MaterializeStructure(xs);
      assert Payloads(xs) == Norm(d).elements;
    }
  }

  lemma CreatesData(rt: Runtime, d: Value, s: Scope)
    requires IsData(d)
    ensures (exists n: nat, x :: Create(rt, n, d, s) == Done(Ok(x))) <==> !d.NotSet?
  {
    var k := EvalData(rt, d, s);
    hide Eval, LocalForm, IsData;
    if d.NotSet? {
      forall n: nat, x
        ensures Create(rt, n, d, s) != Done(Ok(x))
      {
      }
    } else {
      assert Create(rt, k, d, s) == Done(Ok(LocalForm(d)));
    }
  }

  /** `CreateValue` takes data exactly when its top node has a payload; inside a struct a
      node without one does no harm. Materialising the result gives the data back, except
      for what struct nodes had recorded. A second trip changes nothing, and a value is
      unchanged exactly when its struct nodes record nothing. */
  lemma DataRoundTrip(rt: Runtime, d: Value, s: Scope)
    requires IsData(d)
    ensures (exists n: nat, x :: Create(rt, n, d, s) == Done(Ok(x))) <==> !d.NotSet?
    ensures forall n: nat, c :: Create(rt, n, d, s) == Done(Err(c)) ==> d.NotSet? && c == Unimplemented
    ensures forall n: nat, x :: Create(rt, n, d, s) == Done(Ok(x)) ==> Materialize(x) == Ok(Norm(d))
    ensures forall n: nat, x :: Create(rt, n, Norm(d), s) == Done(Ok(x)) ==> Materialize(x) == Ok(Norm(d))
    ensures Norm(d) == d <==> Plain(d)
  {
    NormIdempotent(d);
    MaterializeLocalForm(d);
    MaterializeLocalForm(Norm(d));
    CreatesData(rt, d, s);
    hide Eval, Norm, LocalForm, IsData, Plain;
    forall n: nat | !d.NotSet?
      ensures Create(rt, n, d, s) in {OutOfFuel, Done(Ok(LocalForm(d)))}
      ensures Create(rt, n, Norm(d), s) in {OutOfFuel, Done(Ok(LocalForm(Norm(d))))}
    {
      EvalDataOnly(rt, n, d, s);
      EvalDataOnly(rt, n, Norm(d), s);
    }
  }

  // ----- parallel map -----

  /** The `i`-th call is the first that fails, with the error `c`. */
  ghost predicate FailsFirst(rt: Runtime, n: nat, f: XVal, ds: seq<Value>, s: Scope, c: Code, i: nat) {
    && i < |ds| && OnElement(rt, n, f, ds[i], s) == Done(Err(c))
    && forall j :: 0 <= j < i ==> OnElement(rt, n, f, ds[j], s).IsOk()
  }

  /** The calls are made in order and stop at the first that fails. */
  lemma {:induction false} MapExact(rt: Runtime, n: nat, f: XVal, ds: seq<Value>, s: Scope, ys: seq<XVal>)
    ensures MapFrom(rt, n, f, ds, s) == Done(Ok(ys)) <==>
              |ys| == |ds| && forall i :: 0 <= i < |ds| ==> OnElement(rt, n, f, ds[i], s) == Done(Ok(ys[i]))
    decreases |ds|
  {
    hide OnElement;
    MapUnfolds(rt, n, f, ds, s);
    if ds != [] {
      if |ys| > 0 {
        MapExact(rt, n, f, ds[1..], s, ys[1..]);
        assert ys == [ys[0]] + ys[1..];
      }
    }
  }

  lemma {:induction false} MapFailsExact(rt: Runtime, n: nat, f: XVal, ds: seq<Value>, s: Scope, c: Code)
    ensures MapFrom(rt, n, f, ds, s) == Done(Err(c)) <==> exists i: nat :: FailsFirst(rt, n, f, ds, s, c, i)
    decreases |ds|
  {
    MapUnfolds(rt, n, f, ds, s);
    if ds == [] {
      assert forall i: nat :: !FailsFirst(rt, n, f, ds, s, c, i);
      return;
    }
    hide OnElement, MapFrom, FailsFirst;
    MapFailsExact(rt, n, f, ds[1..], s, c);
    if OnElement(rt, n, f, ds[0], s).IsOk() {
      if i: nat :| FailsFirst(rt, n, f, ds[1..], s, c, i) { FailsLater(rt, n, f, ds, s, c, i); }
      if i: nat :| FailsFirst(rt, n, f, ds, s, c, i) {
        NotAtOnce(rt, n, f, ds, s, c, i);
        FailsLater(rt, n, f, ds, s, c, i - 1);
      }
    } else {
      FailsAtOnce(rt, n, f, ds, s, c);
    }
  }

  lemma NotAtOnce(rt: Runtime, n: nat, f: XVal, ds: seq<Value>, s: Scope, c: Code, i: nat)
    requires ds != [] && OnElement(rt, n, f, ds[0], s).IsOk() && FailsFirst(rt, n, f, ds, s, c, i)
    ensures i > 0
  {
    hide OnElement;
  }

  lemma FailsAtOnce(rt: Runtime, n: nat, f: XVal, ds: seq<Value>, s: Scope, c: Code)
    requires ds != [] && !OnElement(rt, n, f, ds[0], s).IsOk()
    ensures (exists i: nat :: FailsFirst(rt, n, f, ds, s, c, i)) <==> OnElement(rt, n, f, ds[0], s) == Done(Err(c))
  {
    hide OnElement;
    assert FailsFirst(rt, n, f, ds, s, c, 0) <==> OnElement(rt, n, f, ds[0], s) == Done(Err(c));
    assert forall i: nat :: FailsFirst(rt, n, f, ds, s, c, i) ==> i == 0;
  }

  lemma FailsLater(rt: Runtime, n: nat, f: XVal, ds: seq<Value>, s: Scope, c: Code, i: nat)
    requires ds != [] && OnElement(rt, n, f, ds[0], s).IsOk()
    ensures FailsFirst(rt, n, f, ds, s, c, i + 1) <==> FailsFirst(rt, n, f, ds[1..], s, c, i)
  {
    hide OnElement;
    assert forall j :: 0 < j < |ds| ==> ds[j] == ds[1..][j - 1];
  }

  /** `ParallelMap` calls the function on each element of the payload, in order. It succeeds
      exactly when every call does, with the struct of their results, and otherwise reports
      the error of the first that failed. The result materialises exactly when all its
      members do. */
  lemma {:induction false} ParallelMapMeaning(rt: Runtime, n: nat, fn: Value, a: XVal, s: Scope, d: Value, f: XVal)
    requires Materialize(a) == Ok(d) && Create(rt, n, fn, s) == Done(Ok(f))
    ensures forall ys :: ExecMap(rt, n, fn, a, s) == Done(Ok(Structure(ys))) <==>
              |ys| == |ElementsOf(d)|
              && forall i :: 0 <= i < |ys| ==> OnElement(rt, n, f, ElementsOf(d)[i], s) == Done(Ok(ys[i]))
    ensures forall y :: ExecMap(rt, n, fn, a, s) == Done(Ok(y)) ==> y.Structure?
    ensures forall c :: ExecMap(rt, n, fn, a, s) == Done(Err(c)) <==>
              exists i: nat :: FailsFirst(rt, n, f, ElementsOf(d), s, c, i)
    ensures forall ys :: ExecMap(rt, n, fn, a, s) == Done(Ok(Structure(ys))) ==>
              && (Materialize(Structure(ys)).Ok? <==> AllMaterialize(ys))
              && (AllMaterialize(ys) ==> Materialize(Structure(ys)) == Ok(Struct(Payloads(ys), NO_META)))
  {
    hide OnElement, FailsFirst, MapFrom, Materialize, Create, AllMaterialize, Payloads;
    forall ys
      ensures ExecMap(rt, n, fn, a, s) == Done(Ok(Structure(ys))) <==> MapFrom(rt, n, f, ElementsOf(d), s) == Done(Ok(ys))
    {
    }
    forall ys { MapExact(rt, n, f, ElementsOf(d), s, ys); }
    forall c { MapFailsExact(rt, n, f, ElementsOf(d), s, c); }
    forall ys { MaterializeStructure(ys); }
  }
}
