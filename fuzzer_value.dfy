/**
 * The fuzzer's language-level values (include/Fuzzer/Value.h) and the
 * function calls of a test case (include/Fuzzer/FunctionCall.h,
 * include/Fuzzer/TestCase.h).
 *
 * Values are shared by pointer: an array holds pointers to its elements and a
 * call holds pointers to its `this` value and its arguments. A pointer is an
 * opaque `ValueRef`; what it points to is looked up in a `Heap`.
 */
module FuzzerValue {
  import opened MachineInts
  import opened Results

  /** The value kinds, in the order of their `uint8_t` enumerators. */
  datatype ValueKind = Undefined | Null | Boolean | String | Function | Integer | Float | Array | Placeholder

  /** The number of value kinds. */
  const KindCount: nat := 9

  /** The enumerator value of a kind. */
  function Ordinal(k: ValueKind): (r: nat)
    ensures r < KindCount
  {
    match k
    case Undefined => 0
    case Null => 1
    case Boolean => 2
    case String => 3
    case Function => 4
    case Integer => 5
    case Float => 6
    case Array => 7
    case Placeholder => 8
  }

  /** The kind whose enumerator value is `n`, if there is one. */
  function KindOfOrdinal(n: int): (r: Option<ValueKind>)
    ensures r.Some? <==> 0 <= n < KindCount
    ensures r.Some? ==> Ordinal(r.value) == n
  {
    if n == 0 then Some(Undefined)
    else if n == 1 then Some(Null)
    else if n == 2 then Some(Boolean)
    else if n == 3 then Some(String)
    else if n == 4 then Some(Function)
    else if n == 5 then Some(Integer)
    else if n == 6 then Some(Float)
    else if n == 7 then Some(Array)
    else if n == 8 then Some(Placeholder)
    else None
  }

  /** Distinct kinds have distinct enumerator values, so decoding an encoded kind gives it back. */
  lemma KindOfOrdinalRoundTrip(k: ValueKind)
    ensures KindOfOrdinal(Ordinal(k)) == Some(k)
  {
  }

  /** An opaque pointer to a value. */
  type ValueRef = nat

  /**
   * A value. A floating-point value is kept as the 64 bits of its `double`;
   * an array value holds pointers to its elements; a placeholder stands for
   * the return value of the call with the given index.
   */
  datatype Value =
    | UndefinedValue
    | NullValue
    | BooleanValue(boolean: bool)
    | StringValue(str: seq<byte>)
    | FunctionValue(funcId: u32)
    | IntegerValue(integer: i32)
    | FloatValue(bits: u64)
    | ArrayValue(elements: seq<ValueRef>)
    | PlaceholderValue(index: nat)

  /** The kind a value was built with. */
  function Kind(v: Value): ValueKind
  {
    match v
    case UndefinedValue => Undefined
    case NullValue => Null
    case BooleanValue(_) => Boolean
    case StringValue(_) => String
    case FunctionValue(_) => Function
    case IntegerValue(_) => Integer
    case FloatValue(_) => Float
    case ArrayValue(_) => Array
    case PlaceholderValue(_) => Placeholder
  }

  /**
   * The kind checks `IsBoolean`, `IsPlaceholder`, ... are the datatype's
   * discriminators, and each holds exactly when the value has that kind. The
   * kind-specific getters (`GetBooleanValue`, `GetPlaceholderIndex`, ...) are
   * the destructors, which Dafny allows only on a value of the right kind.
   */
  lemma KindChecks(v: Value)
    ensures v.UndefinedValue? <==> Kind(v) == Undefined
    ensures v.NullValue? <==> Kind(v) == Null
    ensures v.BooleanValue? <==> Kind(v) == Boolean
    ensures v.StringValue? <==> Kind(v) == String
    ensures v.FunctionValue? <==> Kind(v) == Function
    ensures v.IntegerValue? <==> Kind(v) == Integer
    ensures v.FloatValue? <==> Kind(v) == Float
    ensures v.ArrayValue? <==> Kind(v) == Array
    ensures v.PlaceholderValue? <==> Kind(v) == Placeholder
  {
  }

  /** A placeholder gives back the call index it was built with. */
  lemma PlaceholderIndex(index: nat)
    ensures Kind(PlaceholderValue(index)) == Placeholder
    ensures PlaceholderValue(index).index == index
  {
  }

  /** The values that pointers point to. */
  type Heap = map<ValueRef, Value>

  /** Every pointer stored in an array of the heap points into the heap. */
  ghost predicate Closed(heap: Heap)
  {
    forall r, i :: r in heap && heap[r].ArrayValue? && 0 <= i < |heap[r].elements| ==>
      heap[r].elements[i] in heap
  }

  /** The error `std::vector::at` throws for an index that is not below the size. */
  datatype OutOfRange = OutOfRange

  /** An array value whose element pointers are updated in place. */
  class ArrayValueObject {
    var elements: seq<ValueRef>

    /** A new array has no elements. */
    constructor ()
      ensures elements == []
    {
      elements := [];
    }

    /** The value this array denotes. */
    function AsValue(): (v: Value)
      reads this
      ensures Kind(v) == Array && v.elements == elements
    {
      ArrayValue(elements)
    }

    /** `Push` adds one element at the back. */
    method Push(value: ValueRef)
      modifies this
      ensures elements == old(elements) + [value]
      ensures |elements| == |old(elements)| + 1 && elements[|elements| - 1] == value
    {
      elements := elements + [value];
    }

    /** `GetElement` is bounds-checked: an index not below the size throws. */
    method GetElement(index: nat) returns (r: Result<ValueRef, OutOfRange>)
      ensures r.Ok? <==> index < |elements|
      ensures r.Ok? ==> r.value == elements[index]
    {
      if index < |elements| {
        r := Ok(elements[index]);
      } else {
        r := Err(OutOfRange);
      }
    }

    /** `SetElement` is bounds-checked and replaces exactly the element at `index`. */
    method SetElement(index: nat, value: ValueRef) returns (r: Result<(), OutOfRange>)
      modifies this
      ensures r.Ok? <==> index < |old(elements)|
      ensures |elements| == |old(elements)|
      ensures r.Ok? ==> elements[index] == value
      ensures forall i :: 0 <= i < |elements| && i != index ==> elements[i] == old(elements)[i]
      ensures r.Err? ==> elements == old(elements)
    {
      if index < |elements| {
        elements := elements[index := value];
        r := Ok(());
      } else {
        r := Err(OutOfRange);
      }
    }
  }

  /** A function call as a test case holds it: the callee id, the optional receiver and the arguments. */
  datatype Call = Call(funcId: u32, receiver: Option<ValueRef>, args: seq<ValueRef>)

  /** A test case: its calls, in order. */
  type TestCase = seq<Call>

  /** A function call whose receiver and arguments are updated in place. */
  class FunctionCall {
    const funcId: u32
    var receiver: Option<ValueRef>
    var args: seq<ValueRef>

    /** A new call has no arguments and no receiver. */
    constructor (funcId: u32)
      ensures this.funcId == funcId && receiver == None && args == []
    {
      this.funcId := funcId;
      receiver := None;
      args := [];
    }

    /** The call as a test case stores it. */
    function Snapshot(): (c: Call)
      reads this
      ensures c.funcId == funcId && c.receiver == receiver && c.args == args
    {
      Call(funcId, receiver, args)
    }

    /** `SetThis` stores the receiver pointer; a null pointer clears it. */
    method SetThis(thisValue: Option<ValueRef>)
      modifies this
      ensures receiver == thisValue && args == old(args)
      ensures HasThis() <==> thisValue.Some?
    {
      receiver := thisValue;
    }

    /** `HasThis` holds exactly when the receiver pointer is not null. */
    predicate HasThis()
      reads this
    {
      receiver.Some?
    }

    /** `PushArg` adds one argument at the back. */
    method PushArg(arg: ValueRef)
      modifies this
      ensures args == old(args) + [arg] && receiver == old(receiver)
      ensures |args| == |old(args)| + 1
    {
      args := args + [arg];
    }

    /** `GetArg` is bounds-checked. */
    method GetArg(index: nat) returns (r: Result<ValueRef, OutOfRange>)
      ensures r.Ok? <==> index < |args|
      ensures r.Ok? ==> r.value == args[index]
    {
      if index < |args| {
        r := Ok(args[index]);
      } else {
        r := Err(OutOfRange);
      }
    }

    /** `SetArg` is bounds-checked and replaces exactly the argument at `index`. */
    method SetArg(index: nat, value: ValueRef) returns (r: Result<(), OutOfRange>)
      modifies this
      ensures r.Ok? <==> index < |old(args)|
      ensures |args| == |old(args)| && receiver == old(receiver)
      ensures r.Ok? ==> args[index] == value
      ensures forall i :: 0 <= i < |args| && i != index ==> args[i] == old(args)[i]
      ensures r.Err? ==> args == old(args)
    {
      if index < |args| {
        args := args[index := value];
        r := Ok(());
      } else {
        r := Err(OutOfRange);
      }
    }

    /**
     * `RemoveArg` erases the argument at `index` and keeps the others in
     * order; erasing at an index not below the size is undefined behaviour,
     * which callers must avoid.
     */
    method RemoveArg(index: nat)
      requires index < |args|
      modifies this
      ensures args == old(args)[..index] + old(args)[index + 1..] && receiver == old(receiver)
      ensures |args| == |old(args)| - 1
      ensures forall i :: 0 <= i < index ==> args[i] == old(args)[i]
      ensures forall i :: index <= i < |args| ==> args[i] == old(args)[i + 1]
    {
      args := args[..index] + args[index + 1..];
    }
  }
}
