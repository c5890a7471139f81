/**
 * The binary writer of the header-only fuzzer (`TestCaseSerializer` in
 * caf/CAFMutator.hpp).
 *
 * Fields are written with `writeTrivial`, the bytes of the field on a
 * little-endian host: a count or size is a `size_t` (8 bytes), a value kind
 * the `int` of `ValueKind` (4 bytes), a function id 8 bytes and an activator
 * id an `id_t` (4 bytes). A struct value is written as its activator id and
 * its arguments with no argument count, so a reader has to know how many
 * arguments each activator takes; the reader here is given that as
 * `arity`.
 */
module LegacyWriting {
  import opened MachineInts
  import opened Results
  import opened LegacyCorpus
  import W = TestCaseWriting

  /** The `ValueKind` numbers. */
  const KindBits: nat := 0
  const KindPointer: nat := 1
  const KindArray: nat := 2
  const KindStruct: nat := 3

  /** Every size and count inside the value fits in a `size_t`. */
  predicate Serializable(v: Value)
    decreases v
  {
    match v
    case BitsValue(data) => |data| < W.SizeLimit
    case PointerValue(pointee) => Serializable(pointee)
    case ArrayValue(length, elements) => length < W.SizeLimit && forall i :: 0 <= i < |elements| ==> Serializable(elements[i])
    case StructValue(_, args) => forall i :: 0 <= i < |args| ==> Serializable(args[i])
  }

  /** The same, for each of a list of values. */
  predicate AllSerializable(vs: seq<Value>)
  {
    forall i :: 0 <= i < |vs| ==> Serializable(vs[i])
  }

  /** The same, for a call. */
  predicate CallSerializable(c: FunctionCall)
  {
    |c.args| < W.SizeLimit && AllSerializable(c.args)
  }

  /**
   * The bytes of a value: its kind, then for bits the size and the bytes,
   * for a pointer the pointee, for an array the length and the elements, for
   * a struct the activator id and the arguments.
   */
  function EncodeValue(v: Value): (r: seq<byte>)
    ensures |r| >= 4
    decreases v
  {
    match v
    case BitsValue(data) => W.Trivial(KindBits, 4) + (W.Trivial(|data|, 8) + data)
    case PointerValue(pointee) => W.Trivial(KindPointer, 4) + EncodeValue(pointee)
    case ArrayValue(length, elements) => W.Trivial(KindArray, 4) + (W.Trivial(length, 8) + EncodeValues(elements))
    case StructValue(activatorId, args) => W.Trivial(KindStruct, 4) + (W.Trivial(activatorId, 4) + EncodeValues(args))
  }

  /** The bytes of values written one after the other. */
  function EncodeValues(vs: seq<Value>): (r: seq<byte>)
    decreases vs
  {
    if vs == [] then [] else EncodeValue(vs[0]) + EncodeValues(vs[1..])
  }

  /** The bytes of a call: the function id, the argument count, then the arguments. */
  function EncodeCall(c: FunctionCall): (r: seq<byte>)
  {
    W.Trivial(c.funcId, 8) + (W.Trivial(|c.args|, 8) + EncodeValues(c.args))
  }

  /** The bytes of calls written one after the other. */
  function EncodeCalls(tc: TestCase): (r: seq<byte>)
  {
    if tc == [] then [] else EncodeCall(tc[0]) + EncodeCalls(tc[1..])
  }

  /** The bytes of a test case: the call count, then the calls. */
  function EncodeTestCase(tc: TestCase): (r: seq<byte>)
  {
    W.Trivial(|tc|, 8) + EncodeCalls(tc)
  }

  /** Writing two lists of values one after the other writes their concatenation. */
  lemma {:induction false} EncodeValuesAppend(a: seq<Value>, b: seq<Value>)
    ensures EncodeValues(a + b) == EncodeValues(a) + EncodeValues(b)
    decreases |a|
  {
    if a != [] {
      assert (a + b)[0] == a[0];
      assert (a + b)[1..] == a[1..] + b;
      EncodeValuesAppend(a[1..], b);
    } else {
      assert a + b == b;
    }
  }

  /** One more value written after a prefix. */
  lemma EncodeValuesSnoc(vs: seq<Value>, i: nat)
    requires i < |vs|
    ensures EncodeValues(vs[..i + 1]) == EncodeValues(vs[..i]) + EncodeValue(vs[i])
  {
    assert vs[..i + 1] == vs[..i] + [vs[i]];
    EncodeValuesAppend(vs[..i], [vs[i]]);
    assert [vs[i]][1..] == [];
  }

  /** Writing two lists of calls one after the other writes their concatenation. */
  lemma {:induction false} EncodeCallsAppend(a: TestCase, b: TestCase)
    ensures EncodeCalls(a + b) == EncodeCalls(a) + EncodeCalls(b)
    decreases |a|
  {
    if a != [] {
      assert (a + b)[0] == a[0];
      assert (a + b)[1..] == a[1..] + b;
      EncodeCallsAppend(a[1..], b);
    } else {
      assert a + b == b;
    }
  }

  /** One more call written after a prefix. */
  lemma EncodeCallsSnoc(tc: TestCase, i: nat)
    requires i < |tc|
    ensures EncodeCalls(tc[..i + 1]) == EncodeCalls(tc[..i]) + EncodeCall(tc[i])
  {
    assert tc[..i + 1] == tc[..i] + [tc[i]];
    EncodeCallsAppend(tc[..i], [tc[i]]);
    assert [tc[i]][1..] == [];
  }

  // ---------------------------------------------------------------------
  // The missing argument count
  // ---------------------------------------------------------------------

  /** A struct of activator 0 with the given arguments. */
  function Struct0(args: seq<Value>): Value
  {
    StructValue(0, args)
  }

  /**
   * Two different arguments that are written as the same bytes: a struct
   * holding a struct that holds an empty bits value, and a struct holding an
   * empty struct and then the empty bits value. Only the number of
   * arguments activator 0 takes tells them apart.
   */
  lemma StructArgumentsAmbiguous()
    ensures Struct0([Struct0([BitsValue([])])]) != Struct0([Struct0([]), BitsValue([])])
    ensures EncodeValue(Struct0([Struct0([BitsValue([])])])) == EncodeValue(Struct0([Struct0([]), BitsValue([])]))
  {
    var head := W.Trivial(KindStruct, 4) + W.Trivial(0, 4);
    var bits := EncodeValue(BitsValue([]));
    assert EncodeValues([BitsValue([])]) == bits by {
      assert [BitsValue([])][1..] == [];
    }
    assert EncodeValue(Struct0([])) == head by {
      W.AppendAssoc(W.Trivial(KindStruct, 4), W.Trivial(0, 4), []);
    }
    var inner := Struct0([BitsValue([])]);
    assert EncodeValue(inner) == head + bits by {
      W.AppendAssoc(W.Trivial(KindStruct, 4), W.Trivial(0, 4), bits);
    }
    assert EncodeValues([inner]) == head + bits by {
      assert [inner][1..] == [];
    }
    var pair := [Struct0([]), BitsValue([])];
    assert EncodeValues(pair) == head + bits by {
      assert pair[1..] == [BitsValue([])];
    }
    W.AppendAssoc(W.Trivial(KindStruct, 4), W.Trivial(0, 4), head + bits);
  }

  // ---------------------------------------------------------------------
  // A reader that knows the activators' arities
  // ---------------------------------------------------------------------

  /**
   * Reading one value off the front, given the number of arguments of each
   * activator; the rest of the bytes is given back.
   */
  function DecodeValue(bs: seq<byte>, arity: u32 -> nat): (r: Result<(Value, seq<byte>), W.DecodeError>)
    ensures r.Ok? ==> |r.value.1| < |bs|
    decreases |bs|, 0
  {
    match W.ReadField(bs, 4)
    case Err(e) => Err(e)
    case Ok((kind, rest)) =>
      if kind == KindBits then DecodeBits(rest)
      else if kind == KindPointer then
        match DecodeValue(rest, arity)
        case Err(e) => Err(e)
        case Ok((pointee, rest1)) => Ok((PointerValue(pointee), rest1))
      else if kind == KindArray then DecodeArray(rest, arity)
      else if kind == KindStruct then DecodeStruct(rest, arity)
      else Err(W.BadTag(kind))
  }

  /** What follows the kind of a bits value: the size, then that many bytes. */
  function DecodeBits(bs: seq<byte>): (r: Result<(Value, seq<byte>), W.DecodeError>)
    ensures r.Ok? ==> |r.value.1| <= |bs|
  {
    match W.ReadField(bs, 8)
    case Err(e) => Err(e)
    case Ok((size, rest)) =>
      if size <= |rest| then Ok((BitsValue(rest[..size]), rest[size..])) else Err(W.Truncated)
  }

  /** What follows the kind of an array value: the length, then that many elements. */
  function DecodeArray(bs: seq<byte>, arity: u32 -> nat): (r: Result<(Value, seq<byte>), W.DecodeError>)
    ensures r.Ok? ==> |r.value.1| <= |bs|
    decreases |bs|, 2
  {
    match W.ReadField(bs, 8)
    case Err(e) => Err(e)
    case Ok((length, rest)) =>
      match DecodeValues(rest, length, arity)
      case Err(e) => Err(e)
      case Ok((elements, rest1)) => Ok((ArrayValue(length, elements), rest1))
  }

  /** What follows the kind of a struct value: the activator id, then as many arguments as it takes. */
  function DecodeStruct(bs: seq<byte>, arity: u32 -> nat): (r: Result<(Value, seq<byte>), W.DecodeError>)
    ensures r.Ok? ==> |r.value.1| <= |bs|
    decreases |bs|, 2
  {
    match W.ReadField(bs, 4)
    case Err(e) => Err(e)
    case Ok((id, rest)) =>
      assert id < 0x1_0000_0000 by { Pow256Four(); }
      match DecodeValues(rest, arity(id), arity)
      case Err(e) => Err(e)
      case Ok((args, rest1)) => Ok((StructValue(id, args), rest1))
  }

  /** Reading `count` values off the front. */
  function DecodeValues(bs: seq<byte>, count: nat, arity: u32 -> nat): (r: Result<(seq<Value>, seq<byte>), W.DecodeError>)
    ensures r.Ok? ==> |r.value.1| <= |bs| && |r.value.0| == count
    decreases |bs|, 1, count
  {
    if count == 0 then Ok(([], bs))
    else
      match DecodeValue(bs, arity)
      case Err(e) => Err(e)
      case Ok((v, rest)) =>
        match DecodeValues(rest, count - 1, arity)
        case Err(e) => Err(e)
        case Ok((vs, rest1)) => Ok(([v] + vs, rest1))
  }

  /**
   * The value agrees with the arities: every struct in it has as many
   * arguments as its activator takes, and every array as many elements as
   * its length says.
   */
  predicate Conforms(v: Value, arity: u32 -> nat)
    decreases v
  {
    match v
    case BitsValue(_) => true
    case PointerValue(pointee) => Conforms(pointee, arity)
    case ArrayValue(length, elements) => length == |elements| && forall i :: 0 <= i < |elements| ==> Conforms(elements[i], arity)
    case StructValue(id, args) => |args| == arity(id) && forall i :: 0 <= i < |args| ==> Conforms(args[i], arity)
  }

  /** The same, for each of a list of values. */
  predicate AllConform(vs: seq<Value>, arity: u32 -> nat)
  {
    forall i :: 0 <= i < |vs| ==> Conforms(vs[i], arity)
  }

  /** After the kind field the reader reads what that kind carries. */
  lemma DecodeAfterKind(kind: nat, payload: seq<byte>, arity: u32 -> nat)
    requires kind < 4
    ensures DecodeValue(W.Trivial(kind, 4) + payload, arity) ==
      if kind == KindBits then DecodeBits(payload)
      else if kind == KindArray then DecodeArray(payload, arity)
      else if kind == KindStruct then DecodeStruct(payload, arity)
      else match DecodeValue(payload, arity)
        case Err(e) => Err(e)
        case Ok((pointee, rest)) => Ok((PointerValue(pointee), rest))
  {
    Pow256Four();
    W.ReadTrivial(kind, 4, payload);
  }

  /** The round trip of a bits value. */
  lemma BitsRoundTrip(data: seq<byte>, rest: seq<byte>, arity: u32 -> nat)
    requires |data| < W.SizeLimit
    ensures DecodeValue(EncodeValue(BitsValue(data)) + rest, arity) == Ok((BitsValue(data), rest))
  {
    Pow256Eight();
    var field := W.Trivial(|data|, 8);
    W.AppendAssoc(W.Trivial(KindBits, 4), field + data, rest);
    W.AppendAssoc(field, data, rest);
    DecodeAfterKind(KindBits, field + (data + rest), arity);
    W.ReadTrivial(|data|, 8, data + rest);
    assert (data + rest)[..|data|] == data;
    assert (data + rest)[|data|..] == rest;
  }

  /** The round trip of a pointer value, given that of its pointee. */
  lemma PointerRoundTrip(pointee: Value, rest: seq<byte>, arity: u32 -> nat)
    requires DecodeValue(EncodeValue(pointee) + rest, arity) == Ok((pointee, rest))
    ensures DecodeValue(EncodeValue(PointerValue(pointee)) + rest, arity) == Ok((PointerValue(pointee), rest))
  {
    W.AppendAssoc(W.Trivial(KindPointer, 4), EncodeValue(pointee), rest);
    DecodeAfterKind(KindPointer, EncodeValue(pointee) + rest, arity);
  }

  /** The round trip of an array value, given that of its elements. */
  lemma ArrayRoundTrip(elements: seq<Value>, rest: seq<byte>, arity: u32 -> nat)
    requires |elements| < W.SizeLimit
    requires DecodeValues(EncodeValues(elements) + rest, |elements|, arity) == Ok((elements, rest))
    ensures DecodeValue(EncodeValue(ArrayValue(|elements|, elements)) + rest, arity) == Ok((ArrayValue(|elements|, elements), rest))
  {
    Pow256Eight();
    var field := W.Trivial(|elements|, 8);
    W.AppendAssoc(W.Trivial(KindArray, 4), field + EncodeValues(elements), rest);
    W.AppendAssoc(field, EncodeValues(elements), rest);
    DecodeAfterKind(KindArray, field + (EncodeValues(elements) + rest), arity);
    W.ReadTrivial(|elements|, 8, EncodeValues(elements) + rest);
  }

  /** The round trip of a struct value, given that of its arguments and that their number is the activator's arity. */
  lemma StructRoundTrip(id: u32, args: seq<Value>, rest: seq<byte>, arity: u32 -> nat)
    requires |args| == arity(id)
    requires DecodeValues(EncodeValues(args) + rest, |args|, arity) == Ok((args, rest))
    ensures DecodeValue(EncodeValue(StructValue(id, args)) + rest, arity) == Ok((StructValue(id, args), rest))
  {
    Pow256Four();
    var field := W.Trivial(id, 4);
    W.AppendAssoc(W.Trivial(KindStruct, 4), field + EncodeValues(args), rest);
    W.AppendAssoc(field, EncodeValues(args), rest);
    DecodeAfterKind(KindStruct, field + (EncodeValues(args) + rest), arity);
    W.ReadTrivial(id, 4, EncodeValues(args) + rest);
  }

  /**
   * The round trip of one value: a reader that knows every activator's
   * arity reads back what was written and leaves the bytes after it.
   */
  lemma {:induction false} ValueRoundTrip(v: Value, rest: seq<byte>, arity: u32 -> nat)
    requires Serializable(v) && Conforms(v, arity)
    ensures DecodeValue(EncodeValue(v) + rest, arity) == Ok((v, rest))
    decreases v, 1
  {
    match v
    case BitsValue(data) =>
      BitsRoundTrip(data, rest, arity);
    case PointerValue(pointee) =>
      ValueRoundTrip(pointee, rest, arity);
      PointerRoundTrip(pointee, rest, arity);
    case ArrayValue(_, elements) =>
      ValuesRoundTrip(elements, rest, arity);
      ArrayRoundTrip(elements, rest, arity);
    case StructValue(id, args) =>
      ValuesRoundTrip(args, rest, arity);
      StructRoundTrip(id, args, rest, arity);
  }

  /** The round trip of values written one after the other. */
  lemma {:induction false} ValuesRoundTrip(vs: seq<Value>, rest: seq<byte>, arity: u32 -> nat)
    requires AllSerializable(vs) && AllConform(vs, arity)
    ensures DecodeValues(EncodeValues(vs) + rest, |vs|, arity) == Ok((vs, rest))
    decreases vs, 0
  {
    if vs != [] {
      var v, ws := vs[0], vs[1..];
      assert vs == [v] + ws;
      assert forall i :: 0 <= i < |ws| ==> ws[i] == vs[i + 1];
      W.AppendAssoc(EncodeValue(v), EncodeValues(ws), rest);
      ValueRoundTrip(v, EncodeValues(ws) + rest, arity);
      ValuesRoundTrip(ws, rest, arity);
    } else {
      assert EncodeValues(vs) + rest == rest;
    }
  }

  /** Reading one call off the front: the function id, the argument count, then the arguments. */
  function DecodeCall(bs: seq<byte>, arity: u32 -> nat): (r: Result<(FunctionCall, seq<byte>), W.DecodeError>)
  {
    match W.ReadField(bs, 8)
    case Err(e) => Err(e)
    case Ok((funcId, rest)) =>
      match W.ReadField(rest, 8)
      case Err(e) => Err(e)
      case Ok((count, rest1)) =>
        match DecodeValues(rest1, count, arity)
        case Err(e) => Err(e)
        case Ok((args, rest2)) =>
          assert funcId < 0x1_0000_0000_0000_0000 by { Pow256Eight(); }
          Ok((FunctionCall(funcId, args), rest2))
  }

  /** Reading `count` calls off the front. */
  function DecodeCalls(bs: seq<byte>, count: nat, arity: u32 -> nat): (r: Result<(TestCase, seq<byte>), W.DecodeError>)
    ensures r.Ok? ==> |r.value.0| == count
    decreases count
  {
    if count == 0 then Ok(([], bs))
    else
      match DecodeCall(bs, arity)
      case Err(e) => Err(e)
      case Ok((c, rest)) =>
        match DecodeCalls(rest, count - 1, arity)
        case Err(e) => Err(e)
        case Ok((cs, rest1)) => Ok(([c] + cs, rest1))
  }

  /** Reading a whole test case: the call count, then the calls, with nothing left over. */
  function DecodeTestCase(bs: seq<byte>, arity: u32 -> nat): (r: Result<TestCase, W.DecodeError>)
  {
    match W.ReadField(bs, 8)
    case Err(e) => Err(e)
    case Ok((count, rest)) =>
      match DecodeCalls(rest, count, arity)
      case Err(e) => Err(e)
      case Ok((tc, rest1)) => if rest1 == [] then Ok(tc) else Err(W.Truncated)
  }

  /** A call that can be written and whose arguments agree with the arities. */
  predicate CallRoundTrips(c: FunctionCall, arity: u32 -> nat)
  {
    CallSerializable(c) && AllConform(c.args, arity)
  }

  /** The round trip of one call. */
  lemma CallRoundTrip(c: FunctionCall, rest: seq<byte>, arity: u32 -> nat)
    requires CallRoundTrips(c, arity)
    ensures DecodeCall(EncodeCall(c) + rest, arity) == Ok((c, rest))
  {
    Pow256Eight();
    var x, y, z := W.Trivial(c.funcId, 8), W.Trivial(|c.args|, 8), EncodeValues(c.args);
    W.AppendAssoc(x, y + z, rest);
    W.AppendAssoc(y, z, rest);
    W.ReadTrivial(c.funcId, 8, y + (z + rest));
    W.ReadTrivial(|c.args|, 8, z + rest);
    ValuesRoundTrip(c.args, rest, arity);
  }

  /** The round trip of calls written one after the other. */
  lemma {:induction false} CallsRoundTrip(tc: TestCase, rest: seq<byte>, arity: u32 -> nat)
    requires forall i :: 0 <= i < |tc| ==> CallRoundTrips(tc[i], arity)
    ensures DecodeCalls(EncodeCalls(tc) + rest, |tc|, arity) == Ok((tc, rest))
  {
    if tc != [] {
      var c, cs := tc[0], tc[1..];
      assert tc == [c] + cs;
      assert forall i :: 0 <= i < |cs| ==> cs[i] == tc[i + 1];
      W.AppendAssoc(EncodeCall(c), EncodeCalls(cs), rest);
      CallRoundTrip(c, EncodeCalls(cs) + rest, arity);
      CallsRoundTrip(cs, rest, arity);
    } else {
      assert EncodeCalls(tc) + rest == rest;
    }
  }

  /**
   * A reader that knows every activator's arity gets the written test case
   * back, when every size fits in a `size_t` and every struct and array
   * holds as many values as its activator or length says.
   */
  lemma TestCaseRoundTrip(tc: TestCase, arity: u32 -> nat)
    requires |tc| < W.SizeLimit && forall i :: 0 <= i < |tc| ==> CallRoundTrips(tc[i], arity)
    ensures DecodeTestCase(EncodeTestCase(tc), arity) == Ok(tc)
  {
    Pow256Eight();
    W.ReadTrivial(|tc|, 8, EncodeCalls(tc));
    CallsRoundTrip(tc, [], arity);
    assert EncodeCalls(tc) + [] == EncodeCalls(tc);
  }

  // ---------------------------------------------------------------------
  // The writer
  // ---------------------------------------------------------------------

  /** `write` of a value: the kind, then its payload, the elements and arguments in order. */
  method WriteValue(o: W.Output, v: Value)
    requires Serializable(v)
    modifies o
    ensures o.written == old(o.written) + EncodeValue(v)
    decreases v
  {
    ghost var start := o.written;
    match v
    case BitsValue(data) =>
      W.WriteTrivial(o, KindBits, 4);
      W.WriteTrivial(o, |data|, 8);
      o.Write(data);
      W.AppendAssoc(start + W.Trivial(KindBits, 4), W.Trivial(|data|, 8), data);
      W.AppendAssoc(start, W.Trivial(KindBits, 4), W.Trivial(|data|, 8) + data);
    case PointerValue(pointee) =>
      W.WriteTrivial(o, KindPointer, 4);
      WriteValue(o, pointee);
      W.AppendAssoc(start, W.Trivial(KindPointer, 4), EncodeValue(pointee));
    case ArrayValue(length, elements) =>
      W.WriteTrivial(o, KindArray, 4);
      W.WriteTrivial(o, length, 8);
      WriteValues(o, elements, v);
      W.AppendAssoc(start + W.Trivial(KindArray, 4), W.Trivial(length, 8), EncodeValues(elements));
      W.AppendAssoc(start, W.Trivial(KindArray, 4), W.Trivial(length, 8) + EncodeValues(elements));
    case StructValue(id, args) =>
      W.WriteTrivial(o, KindStruct, 4);
      W.WriteTrivial(o, id, 4);
      WriteValues(o, args, v);
      W.AppendAssoc(start + W.Trivial(KindStruct, 4), W.Trivial(id, 4), EncodeValues(args));
      W.AppendAssoc(start, W.Trivial(KindStruct, 4), W.Trivial(id, 4) + EncodeValues(args));
  }

  /** The element or argument loop: each value of `vs`, in order. */
  method WriteValues(o: W.Output, vs: seq<Value>, ghost parent: Value)
    requires AllSerializable(vs)
    requires forall i :: 0 <= i < |vs| ==> vs[i] < parent
    modifies o
    ensures o.written == old(o.written) + EncodeValues(vs)
    decreases parent, 0
  {
    ghost var start := o.written;
    var i := 0;
    while i < |vs|
      invariant i <= |vs|
      invariant o.written == start + EncodeValues(vs[..i])
    {
      WriteValue(o, vs[i]);
      EncodeValuesSnoc(vs, i);
      W.AppendAssoc(start, EncodeValues(vs[..i]), EncodeValue(vs[i]));
      i := i + 1;
    }
    assert vs[..i] == vs;
  }

  /** `write` of a call: the function id, the argument count, then the arguments. */
  method WriteCall(o: W.Output, c: FunctionCall)
    requires CallSerializable(c)
    modifies o
    ensures o.written == old(o.written) + EncodeCall(c)
  {
    ghost var start := o.written;
    W.WriteTrivial(o, c.funcId, 8);
    W.WriteTrivial(o, |c.args|, 8);
    ghost var head := o.written;
    var i := 0;
    while i < |c.args|
      invariant i <= |c.args|
      invariant o.written == head + EncodeValues(c.args[..i])
    {
      WriteValue(o, c.args[i]);
      EncodeValuesSnoc(c.args, i);
      W.AppendAssoc(head, EncodeValues(c.args[..i]), EncodeValue(c.args[i]));
      i := i + 1;
    }
    assert c.args[..i] == c.args;
    W.AppendAssoc(start + W.Trivial(c.funcId, 8), W.Trivial(|c.args|, 8), EncodeValues(c.args));
    W.AppendAssoc(start, W.Trivial(c.funcId, 8), W.Trivial(|c.args|, 8) + EncodeValues(c.args));
  }

  /** `write` of a test case: the call count, then each call in order. */
  method WriteTestCase(o: W.Output, tc: TestCase)
    requires forall i :: 0 <= i < |tc| ==> CallSerializable(tc[i])
    modifies o
    ensures o.written == old(o.written) + EncodeTestCase(tc)
  {
    ghost var start := o.written;
    W.WriteTrivial(o, |tc|, 8);
    ghost var head := o.written;
    var i := 0;
    while i < |tc|
      invariant i <= |tc|
      invariant o.written == head + EncodeCalls(tc[..i])
    {
      WriteCall(o, tc[i]);
      EncodeCallsSnoc(tc, i);
      W.AppendAssoc(head, EncodeCalls(tc[..i]), EncodeCall(tc[i]));
      i := i + 1;
    }
    assert tc[..i] == tc;
    W.AppendAssoc(start, W.Trivial(|tc|, 8), EncodeCalls(tc));
  }
}
