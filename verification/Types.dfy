/** Type checking and inference as functions on values. */
module Types {
  import opened Common
  import opened Ir

  // genc/cc/types/checking.cc and inference.cc. Inference annotates a value in place; its
  // result here is the annotated value and the status.

  type Status = Result<()>

  // ----- checking -----

  /** The type has no part that `CheckEqual` does not implement. */
  predicate Specified(t: Type) {
    match t
    case ScalarT(_) => true
    case StructT(elements) => forall i :: 0 <= i < |elements| ==> Specified(elements[i])
    case FunctionT(parameter, result) => Specified(parameter) && Specified(result)
    case Untyped => false
    case SequenceT(_) => false
    case TensorT(_, _) => false
  }

  /** `CheckEqual`. Inside structs and functions every mismatch is reported as
      `InvalidArgument`. */
  function EqualStatus(x: Type, y: Type): Status {
    match x
    case ScalarT(scalar) => if y.ScalarT? && y.scalar == scalar then Ok(()) else Err(InvalidArgument)
    case StructT(elements) =>
      if y.StructT? && |elements| == |y.elements|
         && forall i :: 0 <= i < |elements| ==> EqualStatus(elements[i], y.elements[i]).Ok?
      then Ok(()) else Err(InvalidArgument)
    case FunctionT(parameter, result) =>
      if y.FunctionT? && EqualStatus(parameter, y.parameter).Ok? && EqualStatus(result, y.result).Ok?
      then Ok(()) else Err(InvalidArgument)
    case Untyped => Err(Unimplemented)
    case SequenceT(_) => Err(Unimplemented)
    case TensorT(_, _) => Err(Unimplemented)
  }

  /** The check succeeds exactly on equal, fully specified types. */
  lemma {:induction false} CheckEqualExact(x: Type, y: Type)
    ensures EqualStatus(x, y).Ok? <==> x == y && Specified(x)
  {
    match x
    case ScalarT(_) =>
    case StructT(elements) =>
      if y.StructT? && |elements| == |y.elements| {
        forall i | 0 <= i < |elements|
          ensures EqualStatus(elements[i], y.elements[i]).Ok? <==> elements[i] == y.elements[i] && Specified(elements[i])
        {
          CheckEqualExact(elements[i], y.elements[i]);
        }
        if EqualStatus(x, y).Ok? { assert elements == y.elements; }
      }
    case FunctionT(parameter, result) =>
      if y.FunctionT? {
        CheckEqualExact(parameter, y.parameter);
        CheckEqualExact(result, y.result);
      }
    case Untyped =>
    case SequenceT(_) =>
    case TensorT(_, _) =>
  }

  method CheckEqual(x: Type, y: Type) returns (status: Status)
    ensures status == EqualStatus(x, y)
    decreases x
  {
    if x.ScalarT? {
      if !y.ScalarT? {
        return Err(InvalidArgument);
      }
      return if x.scalar == y.scalar then Ok(()) else Err(InvalidArgument);
    }
    if x.StructT? {
      if !y.StructT? {
        return Err(InvalidArgument);
      }
      if |x.elements| != |y.elements| {
        return Err(InvalidArgument);
      }
      for i := 0 to |x.elements|
        invariant forall j :: 0 <= j < i ==> EqualStatus(x.elements[j], y.elements[j]).Ok?
      {
        status := CheckEqual(x.elements[i], y.elements[i]);
        if status.Err? {
          return Err(InvalidArgument);
        }
      }
      return Ok(());
    }
    if x.FunctionT? {
      if !y.FunctionT? {
        return Err(InvalidArgument);
      }
      status := CheckEqual(x.parameter, y.parameter);
      if status.Err? {
        return Err(InvalidArgument);
      }
      status := CheckEqual(x.result, y.result);
      if status.Err? {
        return Err(InvalidArgument);
      }
      return Ok(());
    }
    return Err(Unimplemented);
  }

  // ----- inference -----

  /** `value_pb.type()`. */
  function TypeOf(v: Value): Type {
    if v.meta.ty.Some? then v.meta.ty.value else Untyped
  }

  function WithType(v: Value, t: Type): Value {
    v.(meta := v.meta.(ty := Some(t)))
  }

  /** Sets the type when there is none, otherwise checks it. */
  function Annotate(v: Value, t: Type): (Value, Status) {
    if v.meta.ty.None? then (WithType(v, t), Ok(())) else (v, EqualStatus(TypeOf(v), t))
  }

  /** The scalar types that inference knows. */
  function ScalarTypeOf(s: Scalar): Option<Type> {
    match s
    case Str(_) => Some(ScalarT(StringType))
    case Int32(_) => Some(ScalarT(Int32Type))
    case Boolean(_) => Some(ScalarT(BoolType))
    case Float32(_) => None
    case Media(_) => None
    case Tensor(_) => None
    case Custom(_) => None
  }

  /** `InferTypes`. */
  function Infer(v: Value): (Value, Status)
    decreases v, 1
  {
    match v
    case Leaf(scalar, _) =>
      var t := ScalarTypeOf(scalar);
      if t.Some? then Annotate(v, t.value) else (v, Err(Unimplemented))
    case Struct(elements, meta) =>
      var (elements', types, status) := InferAll(elements);
      if meta.ty.None? then (Struct(elements', meta.(ty := Some(StructT(types)))), status)
      else if status.Err? then (Struct(elements', meta), status)
      else (Struct(elements', meta), EqualStatus(meta.ty.value, StructT(types)))
    case Select(source, index, meta) =>
      var (source', status) := Infer(source);
      var v' := Select(source', index, meta);
      if status.Err? then (v', status)
      else if !TypeOf(source').StructT? then (v', Err(InvalidArgument))
      else if index < 0 || index >= |TypeOf(source').elements| then (v', Err(InvalidArgument))
      else Annotate(v', TypeOf(source').elements[index])
    case NotSet(_) => (v, Err(Unimplemented))
    case Ref(_, _) => (v, Err(Unimplemented))
    case Lambda(_, _, _) => (v, Err(Unimplemented))
    case Call(_, _, _) => (v, Err(Unimplemented))
    case Block(_, _, _) => (v, Err(Unimplemented))
    case Intrinsic(_, _, _) => (v, Err(Unimplemented))
  }

  /** `CreateStructType`. When an element fails, the elements before it are annotated, and
      the type built so far ends with the empty entry added for it. */
  function InferAll(vs: seq<Value>): (r: (seq<Value>, seq<Type>, Status))
    ensures |r.0| == |vs|
    decreases vs, 0
  {
    if vs == [] then ([], [], Ok(()))
    else
      var (v, status) := Infer(vs[0]);
      if status.Err? then ([v] + vs[1..], [Untyped], status)
      else
        var (rest, types, status') := InferAll(vs[1..]);
        ([v] + rest, [TypeOf(v)] + types, status')
  }

  // ----- the reference definition: the type of a value, whatever its annotations -----

  function TypeFor(v: Value): Option<Type>
    decreases v, 1
  {
    match v
    case Leaf(scalar, _) => ScalarTypeOf(scalar)
    case Struct(elements, _) =>
      var ts := TypesFor(elements);
      if ts.Some? then Some(StructT(ts.value)) else None
    case Select(source, index, _) =>
      var t := TypeFor(source);
      if t.Some? && t.value.StructT? && 0 <= index < |t.value.elements| then Some(t.value.elements[index]) else None
    case NotSet(_) => None
    case Ref(_, _) => None
    case Lambda(_, _, _) => None
    case Call(_, _, _) => None
    case Block(_, _, _) => None
    case Intrinsic(_, _, _) => None
  }

  function TypesFor(vs: seq<Value>): (r: Option<seq<Type>>)
    ensures r.Some? ==> |r.value| == |vs|
    decreases vs, 0
  {
    if vs == [] then Some([])
    else if TypeFor(vs[0]).None? || TypesFor(vs[1..]).None? then None
    else Some([TypeFor(vs[0]).value] + TypesFor(vs[1..]).value)
  }

  /** No annotation contradicts the type of its node. */
  ghost predicate Agrees(v: Value) {
    && (v.meta.ty.Some? ==> v.meta.ty == TypeFor(v))
    && (v.Struct? ==> forall i :: 0 <= i < |v.elements| ==> Agrees(v.elements[i]))
    && (v.Select? ==> Agrees(v.source))
  }

  /** Every node carries its type. */
  ghost predicate Annotated(v: Value) {
    && v.meta.ty.Some? && v.meta.ty == TypeFor(v)
    && (v.Struct? ==> forall i :: 0 <= i < |v.elements| ==> Annotated(v.elements[i]))
    && (v.Select? ==> Annotated(v.source))
  }

  /** The value without any type annotation. */
  function Erase(v: Value): Value {
    var bare := v.(meta := v.meta.(ty := None));
    match bare
    case Struct(elements, meta) => Struct(seq(|v.elements|, i requires 0 <= i < |v.elements| => Erase(v.elements[i])), meta)
    case Select(_, index, meta) => Select(Erase(v.source), index, meta)
    case _ => bare
  }

  ghost predicate AllAgree(vs: seq<Value>) {
    forall i :: 0 <= i < |vs| ==> Agrees(vs[i])
  }

  ghost predicate AllAnnotated(vs: seq<Value>) {
    forall i :: 0 <= i < |vs| ==> Annotated(vs[i])
  }

  lemma {:induction false} TypeForSpecified(v: Value)
    ensures TypeFor(v).Some? ==> Specified(TypeFor(v).value)
    decreases v, 1
  {
    if v.Struct? {
      TypesForSpecified(v.elements);
    } else if v.Select? {
      TypeForSpecified(v.source);
    }
  }

  lemma {:induction false} TypesForSpecified(vs: seq<Value>)
    ensures TypesFor(vs).Some? ==> forall i :: 0 <= i < |vs| ==> Specified(TypesFor(vs).value[i])
    ensures TypesFor(vs).Some? ==> forall i :: 0 <= i < |vs| ==> TypeFor(vs[i]) == Some(TypesFor(vs).value[i])
    decreases vs, 0
  {
    if vs != [] {
      TypeForSpecified(vs[0]);
      TypesForSpecified(vs[1..]);
    }
  }

  /** What annotating a node does, when `t` is the type of the node. */
  lemma {:induction false} AnnotateExact(v: Value, t: Type)
    requires Specified(t)
    ensures Annotate(v, t).1.Ok? <==> v.meta.ty.Some? ==> v.meta.ty == Some(t)
    ensures Annotate(v, t).1.Ok? ==> Annotate(v, t).0 == WithType(v, t)
  {
    if v.meta.ty.Some? { CheckEqualExact(TypeOf(v), t); }
  }

  /** Inference succeeds exactly when the value has a type and no annotation contradicts it;
      then every node carries its type. */
  lemma {:induction false} InferExact(v: Value)
    ensures Infer(v).1.Ok? <==> TypeFor(v).Some? && Agrees(v)
    ensures Infer(v).1.Ok? ==> Annotated(Infer(v).0) && TypeFor(Infer(v).0) == TypeFor(v)
    decreases v, 1
  {
    match v
    case Leaf(scalar, _) => if ScalarTypeOf(scalar).Some? { AnnotateExact(v, ScalarTypeOf(scalar).value); }
    case Struct(_, _) => InferStructExact(v);
    case Select(_, _, _) => InferSelectExact(v);
    case NotSet(_) =>
    case Ref(_, _) =>
    case Lambda(_, _, _) =>
    case Call(_, _, _) =>
    case Block(_, _, _) =>
    case Intrinsic(_, _, _) =>
  }

  lemma {:induction false} InferStructExact(v: Value)
    requires v.Struct?
    ensures Infer(v).1.Ok? <==> TypeFor(v).Some? && Agrees(v)
    ensures Infer(v).1.Ok? ==> Annotated(Infer(v).0) && TypeFor(Infer(v).0) == TypeFor(v)
    decreases v, 0
  {
    InferAllExact(v.elements);
    TypeForSpecified(v);
    var (elements, types, status) := InferAll(v.elements);
    if status.Ok? {
      CheckEqualExact(TypeOf(v), StructT(types));
      assert TypeFor(v) == Some(StructT(types));
    }
  }

  lemma {:induction false} InferSelectExact(v: Value)
    requires v.Select?
    ensures Infer(v).1.Ok? <==> TypeFor(v).Some? && Agrees(v)
    ensures Infer(v).1.Ok? ==> Annotated(Infer(v).0) && TypeFor(Infer(v).0) == TypeFor(v)
    decreases v, 0
  {
    InferExact(v.source);
    TypeForSpecified(v);
    if TypeFor(v).Some? {
      AnnotateExact(Select(Infer(v.source).0, v.index, v.meta), TypeFor(v).value);
    }
  }

  lemma {:induction false} InferAllExact(vs: seq<Value>)
    ensures InferAll(vs).2.Ok? <==> TypesFor(vs).Some? && AllAgree(vs)
    ensures InferAll(vs).2.Ok? ==>
              && InferAll(vs).1 == TypesFor(vs).value
              && AllAnnotated(InferAll(vs).0) && TypesFor(InferAll(vs).0) == TypesFor(vs)
    decreases vs, 0
  {
    if vs != [] {
      InferExact(vs[0]);
      InferAllExact(vs[1..]);
      if Infer(vs[0]).1.Ok? && InferAll(vs[1..]).2.Ok? {
        assert InferAll(vs).0[1..] == InferAll(vs[1..]).0;
      }
    }
  }

  /** Inference touches nothing but type annotations, even when it fails. */
  lemma {:induction false} InferOnlyAnnotates(v: Value)
    ensures Erase(Infer(v).0) == Erase(v)
    decreases v, 1
  {
    if v.Struct? {
      InferAllOnlyAnnotates(v.elements);
    } else if v.Select? {
      InferOnlyAnnotates(v.source);
    }
  }

  lemma {:induction false} InferAllOnlyAnnotates(vs: seq<Value>)
    ensures forall i :: 0 <= i < |vs| ==> Erase(InferAll(vs).0[i]) == Erase(vs[i])
    decreases vs, 0
  {
    if vs != [] {
      InferOnlyAnnotates(vs[0]);
      if Infer(vs[0]).1.Ok? {
        InferAllOnlyAnnotates(vs[1..]);
      }
    }
  }

  /** On an annotated value inference changes nothing. */
  lemma {:induction false} InferStable(v: Value)
    requires Annotated(v)
    ensures Infer(v) == (v, Ok(()))
    decreases v, 1
  {
    TypeForSpecified(v);
    match v
    case Leaf(_, _) => CheckEqualExact(TypeOf(v), TypeOf(v));
    case Struct(elements, _) =>
      InferAllStable(elements);
      CheckEqualExact(TypeOf(v), TypeOf(v));
    case Select(source, _, _) =>
      InferStable(source);
      CheckEqualExact(TypeOf(v), TypeOf(v));
  }

  lemma {:induction false} InferAllStable(vs: seq<Value>)
    requires AllAnnotated(vs) && TypesFor(vs).Some?
    ensures InferAll(vs) == (vs, TypesFor(vs).value, Ok(()))
    decreases vs, 0
  {
    if vs != [] {
      InferStable(vs[0]);
      InferAllStable(vs[1..]);
      assert Annotated(vs[0]);
      assert [vs[0]] + vs[1..] == vs;
    }
  }

  /** A second run after a success changes nothing. */
  lemma {:induction false} InferTwice(v: Value)
    requires Infer(v).1.Ok?
    ensures Infer(Infer(v).0) == (Infer(v).0, Ok(()))
  {
    InferExact(v);
    InferStable(Infer(v).0);
  }

  /** A second run after a failure fails again, whatever the first one left behind. */
  lemma {:induction false} InferFailsAgain(v: Value)
    requires Infer(v).1.Err?
    ensures Infer(Infer(v).0).1.Err?
    decreases v, 1
  {
    match v
    case Leaf(_, _) =>
    case Struct(elements, _) =>
      if InferAll(elements).2.Err? {
        InferAllFailsAgain(elements);
      } else {
        InferAllExact(elements);
        InferAllStable(InferAll(elements).0);
      }
    case Select(source, _, _) =>
      if Infer(source).1.Err? {
        InferFailsAgain(source);
      } else {
        InferTwice(source);
      }
    case NotSet(_) =>
    case Ref(_, _) =>
    case Lambda(_, _, _) =>
    case Call(_, _, _) =>
    case Block(_, _, _) =>
    case Intrinsic(_, _, _) =>
  }

  lemma {:induction false} InferAllFailsAgain(vs: seq<Value>)
    requires InferAll(vs).2.Err?
    ensures InferAll(InferAll(vs).0).2.Err?
    decreases vs, 0
  {
    var ws := InferAll(vs).0;
    if Infer(vs[0]).1.Err? {
      InferFailsAgain(vs[0]);
      assert ws[0] == Infer(vs[0]).0;
    } else {
      InferTwice(vs[0]);
      InferAllFailsAgain(vs[1..]);
      assert ws[0] == Infer(vs[0]).0 && ws[1..] == InferAll(vs[1..]).0;
    }
  }

  // ----- which error -----

  /** A mismatch is `InvalidArgument`; a declared type of a kind that the check does not
      implement is `Unimplemented`. */
  function MismatchOf(declared: Type): Code {
    match declared
    case ScalarT(_) => InvalidArgument
    case StructT(_) => InvalidArgument
    case FunctionT(_, _) => InvalidArgument
    case _ => Unimplemented
  }

  lemma {:induction false} MismatchCode(x: Type, y: Type)
    ensures EqualStatus(x, y).Err? ==> EqualStatus(x, y) == Err(MismatchOf(x))
  {
  }

  ghost predicate FirstFails(vs: seq<Value>, i: nat, c: Code) {
    i < |vs| && Infer(vs[i]).1 == Err(c) && forall j :: 0 <= j < i ==> Infer(vs[j]).1.Ok?
  }

  lemma {:induction false} InferAllCode(vs: seq<Value>)
    ensures InferAll(vs).2.Err? ==> exists i: nat :: FirstFails(vs, i, InferAll(vs).2.code)
    ensures InferAll(vs).2.Ok? ==> forall i :: 0 <= i < |vs| ==> Infer(vs[i]).1.Ok?
    decreases vs
  {
    if vs != [] {
      InferAllCode(vs[1..]);
      if Infer(vs[0]).1.Err? {
        assert FirstFails(vs, 0, Infer(vs[0]).1.code);
      } else if InferAll(vs[1..]).2.Err? {
        var c := InferAll(vs[1..]).2.code;
        var i: nat :| FirstFails(vs[1..], i, c);
        assert forall j :: 0 < j < i + 1 ==> vs[j] == vs[1..][j - 1];
        assert FirstFails(vs, i + 1, c);
      }
    }
  }

  /** The error that inference reports: of the first part that fails; otherwise for a kind it
      does not know, for a selection that its source has no member for, or for an annotation
      that is another type. */
  lemma {:induction false} InferCode(v: Value, c: Code)
    requires Infer(v).1 == Err(c)
    ensures v.Struct? ==>
              (exists i: nat :: FirstFails(v.elements, i, c)) || (v.meta.ty.Some? && c == MismatchOf(v.meta.ty.value))
    ensures v.Select? ==>
              if Infer(v.source).1.Err? then Infer(v.source).1 == Err(c)
              else c == InvalidArgument || (v.meta.ty.Some? && c == MismatchOf(v.meta.ty.value))
    ensures v.Leaf? ==>
              if v.scalar.Str? || v.scalar.Int32? || v.scalar.Boolean? then
                v.meta.ty.Some? && c == MismatchOf(v.meta.ty.value)
              else c == Unimplemented
    ensures !v.Struct? && !v.Select? && !v.Leaf? ==> c == Unimplemented
  {
    match v
    case Struct(elements, meta) =>
      InferAllCode(elements);
      if meta.ty.Some? { MismatchCode(meta.ty.value, StructT(InferAll(elements).1)); }
    case Select(source, index, meta) =>
      var t := TypeOf(Infer(source).0);
      if meta.ty.Some? && t.StructT? && 0 <= index < |t.elements| { MismatchCode(meta.ty.value, t.elements[index]); }
    case Leaf(scalar, meta) =>
      if meta.ty.Some? && ScalarTypeOf(scalar).Some? { MismatchCode(meta.ty.value, ScalarTypeOf(scalar).value); }
    case _ =>
  }
}
