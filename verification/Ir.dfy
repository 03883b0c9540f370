/** The portable intermediate representation of genc/proto/v0/computation.proto. */
module Ir {
  import opened Common

  type int32 = i: int | -0x8000_0000 <= i < 0x8000_0000

  datatype ScalarType = InvalidType | FloatType | Int32Type | StringType | BoolType | OtherType(n: nat)

  /** `Untyped` is a `Type` message whose oneof is not set. */
  datatype Type =
    | Untyped
    | ScalarT(scalar: ScalarType)
    | StructT(elements: seq<Type>)
    | FunctionT(parameter: Type, result: Type)
    | SequenceT(element: Type)
    | TensorT(dtype: ScalarType, dims: seq<int>)

  datatype Scalar =
    | Str(s: string)
    | Boolean(b: bool)
    | Int32(i: int32)
    | Float32(f: real)
    | Media(bytes: seq<int>)
    | Tensor(bytes: seq<int>)
    | Custom(bytes: seq<int>)

  /** The fields of `Value` outside its oneof. */
  datatype Meta = Meta(tag: string, mimetype: string, ty: Option<Type>)

  const NO_META := Meta("", "", None)

  datatype Local = Local(name: string, value: Value)

  datatype Value =
    | NotSet(meta: Meta)
    | Leaf(scalar: Scalar, meta: Meta)
    | Struct(elements: seq<Value>, meta: Meta)
    | Select(source: Value, index: int32, meta: Meta)
    | Ref(name: string, meta: Meta)
    | Lambda(param: string, result: Value, meta: Meta)
    | Call(fn: Value, argument: Option<Value>, meta: Meta)
    | Block(locals: seq<Local>, result: Value, meta: Meta)
    | Intrinsic(uri: string, fixed: Option<Value>, meta: Meta)

  predicate IsBoolean(v: Value) {
    v.Leaf? && v.scalar.Boolean?
  }

  /** `v.boolean()`: false when another field of the oneof is set. */
  predicate BooleanOf(v: Value) {
    IsBoolean(v) && v.scalar.b
  }

  /** `v.int_32()`: 0 when another field of the oneof is set. */
  function Int32Of(v: Value): int32 {
    if v.Leaf? && v.scalar.Int32? then v.scalar.i else 0
  }

  /** `v.struct_().element()`: empty when another field of the oneof is set. */
  function ElementsOf(v: Value): seq<Value> {
    if v.Struct? then v.elements else []
  }

  /** `intrinsic_pb.static_parameter().struct_().element()`. */
  function FixedElements(fixed: Option<Value>): seq<Value> {
    if fixed.Some? then ElementsOf(fixed.value) else []
  }

  predicate HasFixedStruct(fixed: Option<Value>) {
    fixed.Some? && fixed.value.Struct?
  }

  /** The implicit conversion of an `int32` selection index to `uint32_t`. */
  function U32(i: int32): (r: nat)
    ensures 0 <= i ==> r == i
    ensures i < 0 ==> r == i + 0x1_0000_0000
  {
    i % 0x1_0000_0000
  }

  function WithLabel(tag: string, v: Value): Value {
    v.(meta := v.meta.(tag := tag))
  }
}
