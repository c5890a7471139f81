/**
 * The binary writer of native test cases (include/Fuzzer/TestCaseSerializer.h).
 *
 * Every field is written with `WriteTrivial`, which copies the bytes of the
 * field's object representation: on the little-endian hosts the fuzzer runs
 * on, that is the value's bytes, least significant first, `sizeof` of them.
 * Counts and sizes are `size_t` (8 bytes), a function id is 4 bytes, a
 * constructor id 8 bytes and a value kind one byte.
 *
 * Only bits, pointer, array and struct values can be written; the other kinds
 * reach `CAF_UNREACHABLE`, so a caller must not pass them.
 */
module TestCaseWriting {
  import opened MachineInts
  import opened Results
  import opened NativeValues

  /** The kind bytes of the four kinds that can be written. */
  const TagBits: byte := 0
  const TagPointer: byte := 1
  const TagArray: byte := 2
  const TagStruct: byte := 3

  /** The number of values of a `size_t`. */
  const SizeLimit: nat := 0x1_0000_0000_0000_0000

  /** `WriteTrivial`: the `n` bytes of `x`, least significant first. */
  function Trivial(x: int, n: nat): (r: seq<byte>)
    ensures |r| == n
  {
    ToLittleEndian(x, n)
  }

  /** Appending in two steps appends the concatenation. */
  lemma AppendAssoc(a: seq<byte>, b: seq<byte>, c: seq<byte>)
    ensures (a + b) + c == a + (b + c)
  {
  }

  /** The value and everything it holds can be written, and every count fits in a `size_t`. */
  predicate Serializable(v: Value)
    decreases v
  {
    match v
    case BitsValue(data) => |data| < SizeLimit
    case PointerValue(pointee) => Serializable(pointee)
    case ArrayValue(size, elements) => size < SizeLimit && forall i :: 0 <= i < |elements| ==> Serializable(elements[i])
    case StructValue(_, args) => |args| < SizeLimit && forall i :: 0 <= i < |args| ==> Serializable(args[i])
    case _ => false
  }

  /** The same, for each of a list of values. */
  predicate AllSerializable(vs: seq<Value>)
  {
    forall i :: 0 <= i < |vs| ==> Serializable(vs[i])
  }

  /** The same, for a call. */
  predicate CallSerializable(c: FunctionCall)
  {
    |c.args| < SizeLimit && AllSerializable(c.args)
  }

  /**
   * The bytes of a value: its kind, then what the kind carries. The kinds
   * that cannot be written have no bytes; `WriteValue` never reaches them.
   */
  function EncodeValue(v: Value): (r: seq<byte>)
    ensures Serializable(v) ==> |r| >= 1
    decreases v
  {
    match v
    case BitsValue(data) => [TagBits] + (Trivial(|data|, 8) + data)
    case PointerValue(pointee) => [TagPointer] + EncodeValue(pointee)
    case ArrayValue(size, elements) => [TagArray] + (Trivial(size, 8) + EncodeValues(elements))
    case StructValue(ctorId, args) => [TagStruct] + (Trivial(ctorId, 8) + (Trivial(|args|, 8) + EncodeValues(args)))
    case _ => []
  }

  /** The bytes of values written one after the other. */
  function EncodeValues(vs: seq<Value>): (r: seq<byte>)
    decreases vs
  {
    if vs == [] then [] else EncodeValue(vs[0]) + EncodeValues(vs[1..])
  }

  /** The bytes of a call: the function id, the argument count, then the arguments. */
  function EncodeCall(c: FunctionCall): (r: seq<byte>)
  {
    Trivial(c.funcId, 4) + (Trivial(|c.args|, 8) + EncodeValues(c.args))
  }

  /** The bytes of calls written one after the other. */
  function EncodeCalls(tc: TestCase): (r: seq<byte>)
  {
    if tc == [] then [] else EncodeCall(tc[0]) + EncodeCalls(tc[1..])
  }

  /** The bytes of a test case: the call count, then the calls. */
  function EncodeTestCase(tc: TestCase): (r: seq<byte>)
  {
    Trivial(|tc|, 8) + EncodeCalls(tc)
  }

  /** Writing two lists of values one after the other writes their concatenation. */
  lemma {:induction false} EncodeValuesAppend(a: seq<Value>, b: seq<Value>)
    ensures EncodeValues(a + b) == EncodeValues(a) + EncodeValues(b)
    decreases |a|
  {
    if a != [] {
      assert (a + b)[0] == a[0];
      assert (a + b)[1..] == a[1..] + b;
      EncodeValuesAppend(a[1..], b);
    } else {
      assert a + b == b;
    }
  }

  /** One more value written after a prefix. */
  lemma EncodeValuesSnoc(vs: seq<Value>, i: nat)
    requires i < |vs|
    ensures EncodeValues(vs[..i + 1]) == EncodeValues(vs[..i]) + EncodeValue(vs[i])
  {
    assert vs[..i + 1] == vs[..i] + [vs[i]];
    EncodeValuesAppend(vs[..i], [vs[i]]);
    assert [vs[i]][1..] == [];
  }

  /** Writing two lists of calls one after the other writes their concatenation. */
  lemma {:induction false} EncodeCallsAppend(a: TestCase, b: TestCase)
    ensures EncodeCalls(a + b) == EncodeCalls(a) + EncodeCalls(b)
    decreases |a|
  {
    if a != [] {
      assert (a + b)[0] == a[0];
      assert (a + b)[1..] == a[1..] + b;
      EncodeCallsAppend(a[1..], b);
    } else {
      assert a + b == b;
    }
  }

  /** One more call written after a prefix. */
  lemma EncodeCallsSnoc(tc: TestCase, i: nat)
    requires i < |tc|
    ensures EncodeCalls(tc[..i + 1]) == EncodeCalls(tc[..i]) + EncodeCall(tc[i])
  {
    assert tc[..i + 1] == tc[..i] + [tc[i]];
    EncodeCallsAppend(tc[..i], [tc[i]]);
    assert [tc[i]][1..] == [];
  }

  /** What reading back can go wrong on: the bytes end early or a kind byte is not one of the four. */
  datatype DecodeError = Truncated | BadTag(tag: nat)

  /** Reading an `n`-byte little-endian field off the front. */
  function ReadField(bs: seq<byte>, n: nat): (r: Result<(nat, seq<byte>), DecodeError>)
    ensures r.Ok? <==> n <= |bs|
    ensures r.Ok? ==> r.value.1 == bs[n..] && r.value.0 < Pow256(n)
  {
    if n <= |bs| then Ok((LittleEndian(bs[..n]), bs[n..])) else Err(Truncated)
  }

  /**
   * The reader the written bytes are meant for: it reads one value off the
   * front and gives back the rest.
   */
  function DecodeValue(bs: seq<byte>): (r: Result<(Value, seq<byte>), DecodeError>)
    ensures r.Ok? ==> |r.value.1| < |bs|
    decreases |bs|, 0
  {
    if bs == [] then Err(Truncated)
    else if bs[0] == TagBits then DecodeBits(bs[1..])
    else if bs[0] == TagPointer then
      match DecodeValue(bs[1..])
      case Err(e) => Err(e)
      case Ok((pointee, rest)) => Ok((PointerValue(pointee), rest))
    else if bs[0] == TagArray then DecodeArray(bs[1..])
    else if bs[0] == TagStruct then DecodeStruct(bs[1..])
    else Err(BadTag(bs[0]))
  }

  /** What follows the kind byte of a bits value: the size, then that many bytes. */
  function DecodeBits(bs: seq<byte>): (r: Result<(Value, seq<byte>), DecodeError>)
    ensures r.Ok? ==> |r.value.1| <= |bs|
  {
    match ReadField(bs, 8)
    case Err(e) => Err(e)
    case Ok((size, rest)) =>
      if size <= |rest| then Ok((BitsValue(rest[..size]), rest[size..])) else Err(Truncated)
  }

  /** What follows the kind byte of an array value: the size, then that many elements. */
  function DecodeArray(bs: seq<byte>): (r: Result<(Value, seq<byte>), DecodeError>)
    ensures r.Ok? ==> |r.value.1| <= |bs|
    decreases |bs|, 2
  {
    match ReadField(bs, 8)
    case Err(e) => Err(e)
    case Ok((size, rest)) =>
      match DecodeValues(rest, size)
      case Err(e) => Err(e)
      case Ok((elements, rest1)) => Ok((ArrayValue(size, elements), rest1))
  }

  /** What follows the kind byte of a struct value: the constructor id, the count, then the arguments. */
  function DecodeStruct(bs: seq<byte>): (r: Result<(Value, seq<byte>), DecodeError>)
    ensures r.Ok? ==> |r.value.1| <= |bs|
    decreases |bs|, 2
  {
    match ReadField(bs, 8)
    case Err(e) => Err(e)
    case Ok((ctorId, rest)) =>
      match ReadField(rest, 8)
      case Err(e) => Err(e)
      case Ok((count, rest1)) =>
        match DecodeValues(rest1, count)
        case Err(e) => Err(e)
        case Ok((args, rest2)) => Ok((StructValue(ctorId, args), rest2))
  }

  /** Reading `count` values off the front. */
  function DecodeValues(bs: seq<byte>, count: nat): (r: Result<(seq<Value>, seq<byte>), DecodeError>)
    ensures r.Ok? ==> |r.value.1| <= |bs| && |r.value.0| == count
    decreases |bs|, 1, count
  {
    if count == 0 then Ok(([], bs))
    else
      match DecodeValue(bs)
      case Err(e) => Err(e)
      case Ok((v, rest)) =>
        match DecodeValues(rest, count - 1)
        case Err(e) => Err(e)
        case Ok((vs, rest1)) => Ok(([v] + vs, rest1))
  }

  /** Reading an `n`-byte field that was written with `Trivial` gives the value back. */
  lemma ReadTrivial(x: nat, n: nat, rest: seq<byte>)
    requires x < Pow256(n)
    ensures ReadField(Trivial(x, n) + rest, n) == Ok((x, rest))
  {
    var bs := Trivial(x, n) + rest;
    assert bs[..n] == Trivial(x, n);
    assert bs[n..] == rest;
    LittleEndianRoundTrip(x, n);
  }

  /** Every array inside the value holds as many elements as its size says. */
  predicate WellSized(v: Value)
    decreases v
  {
    match v
    case PointerValue(pointee) => WellSized(pointee)
    case ArrayValue(size, elements) => size == |elements| && forall i :: 0 <= i < |elements| ==> WellSized(elements[i])
    case StructValue(_, args) => forall i :: 0 <= i < |args| ==> WellSized(args[i])
    case AggregateValue(fields) => forall i :: 0 <= i < |fields| ==> WellSized(fields[i])
    case _ => true
  }

  /** The same, for each of a list of values. */
  predicate AllWellSized(vs: seq<Value>)
  {
    forall i :: 0 <= i < |vs| ==> WellSized(vs[i])
  }

  /** After a kind byte the reader reads what that kind carries. */
  lemma DecodeAfterTag(payload: seq<byte>)
    ensures DecodeValue([TagBits] + payload) == DecodeBits(payload)
    ensures DecodeValue([TagArray] + payload) == DecodeArray(payload)
    ensures DecodeValue([TagStruct] + payload) == DecodeStruct(payload)
    ensures DecodeValue([TagPointer] + payload) ==
      match DecodeValue(payload)
      case Err(e) => Err(e)
      case Ok((pointee, rest)) => Ok((PointerValue(pointee), rest))
  {
    assert ([TagBits] + payload)[1..] == payload;
    assert ([TagArray] + payload)[1..] == payload;
    assert ([TagStruct] + payload)[1..] == payload;
    assert ([TagPointer] + payload)[1..] == payload;
  }

  /** The round trip of a bits value. */
  lemma BitsRoundTrip(data: seq<byte>, rest: seq<byte>)
    requires |data| < SizeLimit
    ensures DecodeValue(EncodeValue(BitsValue(data)) + rest) == Ok((BitsValue(data), rest))
  {
    Pow256Eight();
    var field := Trivial(|data|, 8);
    AppendAssoc([TagBits], field + data, rest);
    AppendAssoc(field, data, rest);
    DecodeAfterTag(field + (data + rest));
    ReadTrivial(|data|, 8, data + rest);
    assert (data + rest)[..|data|] == data;
    assert (data + rest)[|data|..] == rest;
  }

  /** The round trip of a pointer value, given that of its pointee. */
  lemma PointerRoundTrip(pointee: Value, rest: seq<byte>)
    requires Serializable(pointee)
    requires DecodeValue(EncodeValue(pointee) + rest) == Ok((pointee, rest))
    ensures DecodeValue(EncodeValue(PointerValue(pointee)) + rest) == Ok((PointerValue(pointee), rest))
  {
    AppendAssoc([TagPointer], EncodeValue(pointee), rest);
    DecodeAfterTag(EncodeValue(pointee) + rest);
  }

  /** The round trip of an array value, given that of its elements. */
  lemma ArrayRoundTrip(elements: seq<Value>, rest: seq<byte>)
    requires |elements| < SizeLimit
    requires DecodeValues(EncodeValues(elements) + rest, |elements|) == Ok((elements, rest))
    ensures DecodeValue(EncodeValue(ArrayValue(|elements|, elements)) + rest) == Ok((ArrayValue(|elements|, elements), rest))
  {
    Pow256Eight();
    var field := Trivial(|elements|, 8);
    AppendAssoc([TagArray], field + EncodeValues(elements), rest);
    AppendAssoc(field, EncodeValues(elements), rest);
    DecodeAfterTag(field + (EncodeValues(elements) + rest));
    ReadTrivial(|elements|, 8, EncodeValues(elements) + rest);
  }

  /** Reading the payload of a struct value back, given the round trip of its arguments. */
  lemma StructPayloadRoundTrip(ctorId: u64, args: seq<Value>, rest: seq<byte>)
    requires |args| < SizeLimit
    requires DecodeValues(EncodeValues(args) + rest, |args|) == Ok((args, rest))
    ensures DecodeStruct(Trivial(ctorId, 8) + (Trivial(|args|, 8) + (EncodeValues(args) + rest))) == Ok((StructValue(ctorId, args), rest))
  {
    Pow256Eight();
    var y, z := Trivial(|args|, 8), EncodeValues(args) + rest;
    ReadTrivial(ctorId, 8, y + z);
    ReadTrivial(|args|, 8, z);
  }

  /** The round trip of a struct value, given that of its arguments. */
  lemma StructRoundTrip(ctorId: u64, args: seq<Value>, rest: seq<byte>)
    requires |args| < SizeLimit
    requires DecodeValues(EncodeValues(args) + rest, |args|) == Ok((args, rest))
    ensures DecodeValue(EncodeValue(StructValue(ctorId, args)) + rest) == Ok((StructValue(ctorId, args), rest))
  {
    var x, y, z := Trivial(ctorId, 8), Trivial(|args|, 8), EncodeValues(args);
    AppendAssoc([TagStruct], x + (y + z), rest);
    AppendAssoc(x, y + z, rest);
    AppendAssoc(y, z, rest);
    DecodeAfterTag(x + (y + (z + rest)));
    StructPayloadRoundTrip(ctorId, args, rest);
  }

  /**
   * The round trip of one value: reading what was written gives the value
   * back and leaves the bytes after it, provided every array holds as many
   * elements as its size says (the writer writes the size, not the count).
   */
  lemma {:induction false} ValueRoundTrip(v: Value, rest: seq<byte>)
    requires Serializable(v) && WellSized(v)
    ensures DecodeValue(EncodeValue(v) + rest) == Ok((v, rest))
    decreases v, 1
  {
    match v
    case BitsValue(data) =>
      BitsRoundTrip(data, rest);
    case PointerValue(pointee) =>
      ValueRoundTrip(pointee, rest);
      PointerRoundTrip(pointee, rest);
    case ArrayValue(size, elements) =>
      ValuesRoundTrip(elements, rest);
      ArrayRoundTrip(elements, rest);
    case StructValue(ctorId, args) =>
      ValuesRoundTrip(args, rest);
      StructRoundTrip(ctorId, args, rest);
  }

  /** The round trip of values written one after the other. */
  lemma {:induction false} ValuesRoundTrip(vs: seq<Value>, rest: seq<byte>)
    requires AllSerializable(vs) && AllWellSized(vs)
    ensures DecodeValues(EncodeValues(vs) + rest, |vs|) == Ok((vs, rest))
    decreases vs, 0
  {
    if vs != [] {
      var v, ws := vs[0], vs[1..];
      assert vs == [v] + ws;
      assert forall i :: 0 <= i < |ws| ==> ws[i] == vs[i + 1];
      AppendAssoc(EncodeValue(v), EncodeValues(ws), rest);
      ValueRoundTrip(v, EncodeValues(ws) + rest);
      ValuesRoundTrip(ws, rest);
    } else {
      assert EncodeValues(vs) + rest == rest;
    }
  }

  /** Reading one call off the front: the function id, the argument count, then the arguments. */
  function DecodeCall(bs: seq<byte>): (r: Result<(FunctionCall, seq<byte>), DecodeError>)
    ensures r.Ok? ==> |r.value.1| < |bs|
  {
    match ReadField(bs, 4)
    case Err(e) => Err(e)
    case Ok((funcId, rest)) =>
      match ReadField(rest, 8)
      case Err(e) => Err(e)
      case Ok((count, rest1)) =>
        match DecodeValues(rest1, count)
        case Err(e) => Err(e)
        case Ok((args, rest2)) =>
          assert funcId < 0x1_0000_0000 by { Pow256Four(); }
          Ok((FunctionCall(funcId, args), rest2))
  }

  /** Reading `count` calls off the front. */
  function DecodeCalls(bs: seq<byte>, count: nat): (r: Result<(TestCase, seq<byte>), DecodeError>)
    ensures r.Ok? ==> |r.value.0| == count
    decreases count
  {
    if count == 0 then Ok(([], bs))
    else
      match DecodeCall(bs)
      case Err(e) => Err(e)
      case Ok((c, rest)) =>
        match DecodeCalls(rest, count - 1)
        case Err(e) => Err(e)
        case Ok((cs, rest1)) => Ok(([c] + cs, rest1))
  }

  /** Reading a whole test case: the call count, then the calls, with nothing left over. */
  function DecodeTestCase(bs: seq<byte>): (r: Result<TestCase, DecodeError>)
  {
    match ReadField(bs, 8)
    case Err(e) => Err(e)
    case Ok((count, rest)) =>
      match DecodeCalls(rest, count)
      case Err(e) => Err(e)
      case Ok((tc, rest1)) => if rest1 == [] then Ok(tc) else Err(Truncated)
  }

  /** A call can be read back: its arguments can, and there are fewer than 2^64 of them. */
  predicate CallRoundTrips(c: FunctionCall)
  {
    CallSerializable(c) && AllWellSized(c.args)
  }

  /** The round trip of one call. */
  lemma CallRoundTrip(c: FunctionCall, rest: seq<byte>)
    requires CallRoundTrips(c)
    ensures DecodeCall(EncodeCall(c) + rest) == Ok((c, rest))
  {
    Pow256Four();
    Pow256Eight();
    var x, y, z := Trivial(c.funcId, 4), Trivial(|c.args|, 8), EncodeValues(c.args);
    AppendAssoc(x, y + z, rest);
    AppendAssoc(y, z, rest);
    ReadTrivial(c.funcId, 4, y + (z + rest));
    ReadTrivial(|c.args|, 8, z + rest);
    ValuesRoundTrip(c.args, rest);
  }

  /** The round trip of calls written one after the other. */
  lemma {:induction false} CallsRoundTrip(tc: TestCase, rest: seq<byte>)
    requires forall i :: 0 <= i < |tc| ==> CallRoundTrips(tc[i])
    ensures DecodeCalls(EncodeCalls(tc) + rest, |tc|) == Ok((tc, rest))
  {
    if tc != [] {
      var c, cs := tc[0], tc[1..];
      assert tc == [c] + cs;
      assert forall i :: 0 <= i < |cs| ==> cs[i] == tc[i + 1];
      AppendAssoc(EncodeCall(c), EncodeCalls(cs), rest);
      CallRoundTrip(c, EncodeCalls(cs) + rest);
      CallsRoundTrip(cs, rest);
    } else {
      assert EncodeCalls(tc) + rest == rest;
    }
  }

  /**
   * Reading a written test case gives it back, when every call and every
   * value in it can be written and every array holds as many elements as its
   * size says.
   */
  lemma TestCaseRoundTrip(tc: TestCase)
    requires |tc| < SizeLimit && forall i :: 0 <= i < |tc| ==> CallRoundTrips(tc[i])
    ensures DecodeTestCase(EncodeTestCase(tc)) == Ok(tc)
  {
    Pow256Eight();
    ReadTrivial(|tc|, 8, EncodeCalls(tc));
    CallsRoundTrip(tc, []);
    assert EncodeCalls(tc) + [] == EncodeCalls(tc);
  }

  /** An output stream that bytes are appended to. */
  class Output {
    var written: seq<byte>

    constructor ()
      ensures written == []
    {
      written := [];
    }

    /** `write(buffer, size)`: the bytes are appended. */
    method Write(bytes: seq<byte>)
      modifies this
      ensures written == old(written) + bytes
    {
      written := written + bytes;
    }
  }

  /** `WriteTrivial`: exactly `n` bytes are appended. */
  method WriteTrivial(o: Output, x: int, n: nat)
    modifies o
    ensures o.written == old(o.written) + Trivial(x, n)
    ensures |o.written| == |old(o.written)| + n
  {
    o.Write(Trivial(x, n));
  }

  /** `Write` of a value: the kind, then its payload, the elements and arguments in order. */
  method WriteValue(o: Output, v: Value)
    requires Serializable(v)
    modifies o
    ensures o.written == old(o.written) + EncodeValue(v)
    decreases v
  {
    ghost var start := o.written;
    match v
    case BitsValue(data) =>
      WriteTrivial(o, TagBits, 1);
      assert Trivial(TagBits, 1) == [TagBits];
      WriteTrivial(o, |data|, 8);
      o.Write(data);
      AppendAssoc(start + [TagBits], Trivial(|data|, 8), data);
      AppendAssoc(start, [TagBits], Trivial(|data|, 8) + data);
    case PointerValue(pointee) =>
      WriteTrivial(o, TagPointer, 1);
      assert Trivial(TagPointer, 1) == [TagPointer];
      WriteValue(o, pointee);
      AppendAssoc(start, [TagPointer], EncodeValue(pointee));
    case ArrayValue(size, elements) =>
      WriteTrivial(o, TagArray, 1);
      assert Trivial(TagArray, 1) == [TagArray];
      WriteTrivial(o, size, 8);
      WriteValues(o, elements, v);
      AppendAssoc(start + [TagArray], Trivial(size, 8), EncodeValues(elements));
      AppendAssoc(start, [TagArray], Trivial(size, 8) + EncodeValues(elements));
    case StructValue(ctorId, args) =>
      WriteTrivial(o, TagStruct, 1);
      assert Trivial(TagStruct, 1) == [TagStruct];
      WriteTrivial(o, ctorId, 8);
      WriteTrivial(o, |args|, 8);
      WriteValues(o, args, v);
      var x, y, z := Trivial(ctorId, 8), Trivial(|args|, 8), EncodeValues(args);
      AppendAssoc(start + [TagStruct] + x, y, z);
      AppendAssoc(start + [TagStruct], x, y + z);
      AppendAssoc(start, [TagStruct], x + (y + z));
  }

  /** The element or argument loop: each value of `vs`, in order. */
  method WriteValues(o: Output, vs: seq<Value>, ghost parent: Value)
    requires AllSerializable(vs)
    requires forall i :: 0 <= i < |vs| ==> vs[i] < parent
    modifies o
    ensures o.written == old(o.written) + EncodeValues(vs)
    decreases parent, 0
  {
    ghost var start := o.written;
    var i := 0;
    while i < |vs|
      invariant i <= |vs|
      invariant o.written == start + EncodeValues(vs[..i])
    {
      WriteValue(o, vs[i]);
      EncodeValuesSnoc(vs, i);
      AppendAssoc(start, EncodeValues(vs[..i]), EncodeValue(vs[i]));
      i := i + 1;
    }
    assert vs[..i] == vs;
  }

  /** `Write` of a call: the function id, the argument count, then the arguments. */
  method WriteCall(o: Output, c: FunctionCall)
    requires CallSerializable(c)
    modifies o
    ensures o.written == old(o.written) + EncodeCall(c)
  {
    ghost var start := o.written;
    WriteTrivial(o, c.funcId, 4);
    WriteTrivial(o, |c.args|, 8);
    ghost var head := o.written;
    var i := 0;
    while i < |c.args|
      invariant i <= |c.args|
      invariant o.written == head + EncodeValues(c.args[..i])
    {
      WriteValue(o, c.args[i]);
      EncodeValuesSnoc(c.args, i);
      AppendAssoc(head, EncodeValues(c.args[..i]), EncodeValue(c.args[i]));
      i := i + 1;
    }
    assert c.args[..i] == c.args;
    AppendAssoc(start + Trivial(c.funcId, 4), Trivial(|c.args|, 8), EncodeValues(c.args));
    AppendAssoc(start, Trivial(c.funcId, 4), Trivial(|c.args|, 8) + EncodeValues(c.args));
  }

  /** `Write` of a test case: the call count, then each call in order. */
  method WriteTestCase(o: Output, tc: TestCase)
    requires forall i :: 0 <= i < |tc| ==> CallSerializable(tc[i])
    modifies o
    ensures o.written == old(o.written) + EncodeTestCase(tc)
  {
    ghost var start := o.written;
    WriteTrivial(o, |tc|, 8);
    ghost var head := o.written;
    var i := 0;
    while i < |tc|
      invariant i <= |tc|
      invariant o.written == head + EncodeCalls(tc[..i])
    {
      WriteCall(o, tc[i]);
      EncodeCallsSnoc(tc, i);
      AppendAssoc(head, EncodeCalls(tc[..i]), EncodeCall(tc[i]));
      i := i + 1;
    }
    assert tc[..i] == tc;
    AppendAssoc(start, Trivial(|tc|, 8), EncodeCalls(tc));
  }
}
