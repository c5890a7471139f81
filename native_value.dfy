/**
 * The fuzzer's native values and test cases, as the generators, the mutator
 * and the binary serializer see them (include/Fuzzer/BitsValue.h,
 * PointerValue.h, FunctionPointerValue.h, ArrayValue.h, StructValue.h,
 * AggregateValue.h, PlaceholderValue.h), and the types they are generated
 * from (include/Basic/Type.h and the type headers beside it).
 *
 * Values are held by pointer in the source and may be shared; the model
 * holds them as trees, which is what every operation modelled here reads.
 */
module NativeValues {
  import opened MachineInts

  /**
   * A type: a bits type of a byte size, a pointer (to data or to a function
   * of a signature), an array of a fixed size, a struct with its
   * constructors, or an aggregate with its fields. Every type has a 64-bit id.
   */
  datatype Type =
    | BitsType(id: u64, size: nat)
    | PointerType(id: u64, pointee: Type)
    | FunctionPointerType(id: u64, signatureId: u64)
    | ArrayType(id: u64, size: nat, element: Type)
    | StructType(id: u64, ctors: seq<Constructor>)
    | AggregateType(id: u64, fields: seq<Type>)

  /** A constructor: its id and its parameter types; the first parameter is the object being built. */
  datatype Constructor = Constructor(id: u64, params: seq<Type>)

  /**
   * A value. A bits value holds its bytes; an array value holds the size of
   * its type and its elements; a struct value holds the id of the
   * constructor that builds it and that constructor's arguments; a
   * placeholder stands for the return value of an earlier call.
   */
  datatype Value =
    | BitsValue(data: seq<byte>)
    | PointerValue(pointee: Value)
    | FunctionPointerValue(functionId: u64)
    | ArrayValue(size: nat, elements: seq<Value>)
    | StructValue(ctorId: u64, args: seq<Value>)
    | AggregateValue(fields: seq<Value>)
    | PlaceholderValue(valueIndex: nat)

  /** A call: the callee's id and the argument values. */
  datatype FunctionCall = FunctionCall(funcId: u32, args: seq<Value>)

  /** A test case: its calls, in order. */
  type TestCase = seq<FunctionCall>

  /** The value has the shape its type gives: sizes, element counts, argument counts and field counts. */
  predicate Fits(v: Value, t: Type)
    decreases t
  {
    match t
    case BitsType(_, size) => v.BitsValue? && |v.data| == size
    case PointerType(_, pointee) => v.PointerValue? && Fits(v.pointee, pointee)
    case FunctionPointerType(_, _) => v.FunctionPointerValue?
    case ArrayType(_, size, element) =>
      v.ArrayValue? && v.size == size && |v.elements| == size &&
      forall i :: 0 <= i < |v.elements| ==> Fits(v.elements[i], element)
    case StructType(_, ctors) =>
      v.StructValue? && exists c :: c in ctors && c.id == v.ctorId && |c.params| >= 1 && |v.args| == |c.params| - 1
    case AggregateType(_, fields) =>
      v.AggregateValue? && |v.fields| == |fields| &&
      forall i :: 0 <= i < |fields| ==> Fits(v.fields[i], fields[i])
  }
}
