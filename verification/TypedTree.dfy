/** `InferTypes` on the tree it annotates in place (genc/cc/types/inference.cc). A node owns
    the nodes below it, as a protocol buffer owns its submessages. */
module TypedTrees {
  import opened Common
  import opened Ir
  import opened Types

  /** What inferring a list does, element by element, when nothing fails. */
  lemma {:induction false} InferAllSucceeds(vs: seq<Value>, ws: seq<Value>, types: seq<Type>)
    requires |vs| == |ws| == |types|
    requires forall j :: 0 <= j < |vs| ==> Infer(vs[j]) == (ws[j], Ok(())) && types[j] == TypeOf(ws[j])
    ensures InferAll(vs) == (ws, types, Ok(()))
    decreases |vs|
  {
    if vs != [] {
      InferAllSucceeds(vs[1..], ws[1..], types[1..]);
      assert [ws[0]] + ws[1..] == ws && [types[0]] + types[1..] == types;
    }
  }

  /** The `i`-th element fails after the ones before it succeeded. */
  lemma {:induction false} InferAllStops(vs: seq<Value>, ws: seq<Value>, types: seq<Type>, i: nat, status: Status)
    requires i < |vs| == |ws| && |types| == i && status.Err?
    requires forall j :: 0 <= j < i ==> Infer(vs[j]) == (ws[j], Ok(())) && types[j] == TypeOf(ws[j])
    requires Infer(vs[i]) == (ws[i], status) && forall j :: i < j < |vs| ==> ws[j] == vs[j]
    ensures InferAll(vs) == (ws, types + [Untyped], status)
    decreases i
  {
    hide Infer, TypeOf;
    if i == 0 {
      assert [ws[0]] + vs[1..] == ws && types + [Untyped] == [Untyped];
    } else {
      InferAllStops(vs[1..], ws[1..], types[1..], i - 1, status);
      assert [ws[0]] + ws[1..] == ws && [types[0]] + (types[1..] + [Untyped]) == types + [Untyped];
    }
  }

  /** What a node holds besides its children and its type. */
  datatype Shape =
    | LeafShape(scalar: Scalar)
    | StructShape
    | SelectShape(index: int32)
    | OtherShape(v: Value)

  class Node {
    const shape: Shape
    const tag: string
    const mimetype: string
    const children: seq<Node>
    var ty: Option<Type>

    ghost const repr: set<Node>

    constructor (shape: Shape, tag: string, mimetype: string, ty: Option<Type>, children: seq<Node>)
      requires forall i :: 0 <= i < |children| ==> children[i].Valid()
      requires forall i, j :: 0 <= i < j < |children| ==> children[i].repr !! children[j].repr
      requires shape.SelectShape? ==> |children| == 1
      requires shape.OtherShape? ==> !shape.v.Leaf? && !shape.v.Struct? && !shape.v.Select?
      ensures Valid() && this.shape == shape && this.children == children && this.ty == ty
      ensures fresh(this) && repr == {this} + set i, o | 0 <= i < |children| && o in children[i].repr :: o
    {
      this.shape, this.tag, this.mimetype, this.ty, this.children := shape, tag, mimetype, ty, children;
      this.repr := {this} + set i, o | 0 <= i < |children| && o in children[i].repr :: o;
    }

    ghost predicate Valid()
      decreases repr
    {
      && this in repr
      && (forall i :: 0 <= i < |children| ==>
            children[i].repr < repr && this !in children[i].repr && children[i].Valid())
      && (forall i, j :: 0 <= i < j < |children| ==> children[i].repr !! children[j].repr)
      && (shape.SelectShape? ==> |children| == 1)
      && (shape.OtherShape? ==> !shape.v.Leaf? && !shape.v.Struct? && !shape.v.Select?)
    }

    /** Everything owned by the children. */
    ghost function Below(): set<Node> {
      set i, o | 0 <= i < |children| && o in children[i].repr :: o
    }

    /** The value the tree stands for now. */
    ghost function Abs(): Value
      requires Valid()
      reads repr
      decreases repr, 1
    {
      var meta := Meta(tag, mimetype, ty);
      match shape
      case LeafShape(scalar) => Leaf(scalar, meta)
      case StructShape => Struct(AbsChildren(), meta)
      case SelectShape(index) => Select(children[0].Abs(), index, meta)
      case OtherShape(v) => v
    }

    ghost function AbsChildren(): seq<Value>
      requires Valid()
      reads Below()
      decreases repr, 0
    {
      seq(|children|, i requires 0 <= i < |children| reads Below() => children[i].Abs())
    }

    /** `SetScalarType`, and the last step of a selection. */
    method Annotate(t: Type) returns (status: Status)
      requires Valid() && (shape.LeafShape? || shape.SelectShape?)
      modifies this
      ensures (Abs(), status) == Types.Annotate(old(Abs()), t)
    {
      if ty.None? {
        ty := Some(t);
        return Ok(());
      }
      status := CheckEqual(ty.value, t);
    }

    /** `value_pb.type()`. */
    function CurrentType(): Type
      reads this
    {
      if ty.Some? then ty.value else Untyped
    }

    /** Inferring one child leaves the others alone. */
    method InferChild(i: nat) returns (status: Status)
      requires Valid() && i < |children|
      modifies children[i].repr
      ensures (children[i].Abs(), status) == Infer(old(children[i].Abs()))
      ensures status.Ok? ==> status == Ok(()) && children[i].CurrentType() == TypeOf(children[i].Abs())
      ensures forall j :: 0 <= j < |children| && j != i ==> children[j].Abs() == old(children[j].Abs())
      decreases repr, 0
    {
      forall j | 0 <= j < |children| && j != i
        ensures children[j].repr !! children[i].repr
      {
        if i < j { assert children[i].repr !! children[j].repr; }
      }
      status := children[i].InferTypes();
      if status.Ok? { assert status.value == (); }
    }

    /** Infers the children in order; `types` is the struct type written so far. */
    method CreateStructType() returns (types: seq<Type>, status: Status)
      requires Valid()
      modifies Below()
      ensures (AbsChildren(), types, status) == InferAll(old(AbsChildren()))
      decreases repr, 1
    {
      hide Infer, InferAll, Abs, TypeOf, CurrentType;
      ghost var vs := AbsChildren();
      types := [];
      for i := 0 to |children|
        invariant |types| == i
        invariant forall j :: 0 <= j < i ==> Infer(vs[j]) == (children[j].Abs(), Ok(())) && types[j] == TypeOf(children[j].Abs())
        invariant forall j :: i <= j < |children| ==> children[j].Abs() == vs[j]
      {
        assert children[i].repr <= Below();
        status := InferChild(i);
        if status.Err? {
          InferAllStops(vs, AbsChildren(), types, i, status);
          types := types + [Untyped];
          return;
        }
        types := types + [children[i].CurrentType()];
      }
      InferAllSucceeds(vs, AbsChildren(), types);
      status := Ok(());
    }

    method InferTypes() returns (status: Status)
      requires Valid()
      modifies repr
      ensures (Abs(), status) == Infer(old(Abs()))
      decreases repr, 2
    {
      match shape
      case LeafShape(scalar) =>
        var t := ScalarTypeOf(scalar);
        if t.None? {
          return Err(Unimplemented);
        }
        status := Annotate(t.value);
      case StructShape =>
        var types;
        types, status := CreateStructType();
        if ty.None? {
          ty := Some(StructT(types));
        } else if status.Ok? {
          status := CheckEqual(ty.value, StructT(types));
        }
      case SelectShape(index) =>
        var source := children[0];
        status := source.InferTypes();
        if status.Err? {
          return;
        }
        if source.ty.None? || !source.ty.value.StructT? {
          return Err(InvalidArgument);
        }
        if index < 0 || index >= |source.ty.value.elements| {
          return Err(InvalidArgument);
        }
        status := Annotate(source.ty.value.elements[index]);
      case OtherShape(_) => return Err(Unimplemented);
    }
  }
}
