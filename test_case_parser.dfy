/**
 * The target-side reader of binary test cases
 * (include/Targets/Common/TestCaseParser.h). It reads a test case from an
 * input stream, builds each value through the target's value factory and
 * hands each call to the target's executor.
 *
 * The factory and the executor belong to the target (V8) and are not part of
 * this model: a value the factory builds is a `TargetValue`, an array the
 * factory builds is a handle to the element list recorded for it, and the
 * executor records each invocation and answers with an opaque `Returned`
 * value naming that invocation. The input stream is a byte sequence with a
 * read position.
 */
module TestCaseParsing {
  import opened MachineInts
  import opened Results

  /** A value as the target's factory builds it. */
  datatype TargetValue =
    | Undefined
    | Null
    | Boolean(boolean: bool)
    | String(bytes: seq<byte>)
    | Function(funcId: u32)
    | Integer(integer: i32)
    | Float(bits: u64)
    | ArrayHandle(array: nat)
    | Returned(call: nat)

  /** One call handed to the executor: the function id, the receiver and the arguments. */
  datatype Invocation = Invocation(funcId: u32, receiver: TargetValue, args: seq<TargetValue>)

  /**
   * Why parsing stops: the stream ends inside a read, a kind byte is not one
   * of the nine kinds (unreachable code), a boolean byte is neither 0 nor 1
   * (a failed assertion), or a placeholder index is not below the pool size
   * (`std::vector::at` throws).
   */
  datatype ParseError = Truncated | BadKind(kind: byte) | BadBoolean(value: byte) | PlaceholderOutOfRange(index: nat)

  /**
   * The parser's state: the stream position, the pool of values that
   * placeholders refer to, the element lists of the arrays built so far and
   * the invocations handed to the executor so far.
   */
  datatype State = State(pos: nat, pool: seq<TargetValue>, arrays: seq<seq<TargetValue>>, calls: seq<Invocation>)

  /** The kind bytes of the wire format, in the order of `ParseValue`'s enumeration. */
  const KindUndefined: byte := 0
  const KindNull: byte := 1
  const KindBoolean: byte := 2
  const KindString: byte := 3
  const KindFunction: byte := 4
  const KindInteger: byte := 5
  const KindFloat: byte := 6
  const KindArray: byte := 7
  const KindPlaceholder: byte := 8

  /** `ReadInt` of an unsigned `n`-byte integer: `n` bytes, least significant first. */
  function ReadUnsigned(input: seq<byte>, st: State, n: nat): (r: Result<(nat, State), ParseError>)
    ensures r.Ok? <==> st.pos + n <= |input|
    ensures r.Ok? ==> r.value.1 == st.(pos := st.pos + n) && r.value.0 < Pow256(n)
  {
    if st.pos + n <= |input| then Ok((LittleEndian(input[st.pos..st.pos + n]), st.(pos := st.pos + n)))
    else Err(Truncated)
  }

  /** `ParseBooleanValue`: one byte that must be 0 or 1. */
  function ParseBooleanF(input: seq<byte>, st: State): (r: Result<(TargetValue, State), ParseError>)
  {
    match ReadUnsigned(input, st, 1)
    case Err(e) => Err(e)
    case Ok((b, st1)) =>
      if b == 0 || b == 1 then Ok((Boolean(b == 1), st1)) else Err(BadBoolean(b))
  }

  /** `ParseStringValue`: a 4-byte length, then that many bytes. */
  function ParseStringF(input: seq<byte>, st: State): (r: Result<(TargetValue, State), ParseError>)
  {
    match ReadUnsigned(input, st, 4)
    case Err(e) => Err(e)
    case Ok((size, st1)) =>
      if st1.pos + size <= |input| then Ok((String(input[st1.pos..st1.pos + size]), st1.(pos := st1.pos + size)))
      else Err(Truncated)
  }

  /** `ParseFunctionValue`: a 4-byte function id. */
  function ParseFunctionF(input: seq<byte>, st: State): (r: Result<(TargetValue, State), ParseError>)
  {
    match ReadUnsigned(input, st, 4)
    case Err(e) => Err(e)
    case Ok((id, st1)) => Ok((Function(id), st1))
  }

  /** `ParseIntegerValue`: 4 bytes read as a two's-complement `int32_t`. */
  function ParseIntegerF(input: seq<byte>, st: State): (r: Result<(TargetValue, State), ParseError>)
  {
    match ReadUnsigned(input, st, 4)
    case Err(e) => Err(e)
    case Ok((raw, st1)) => Ok((Integer(ToI32(raw)), st1))
  }

  /** `ParseFloatValue`: the 8 bytes of a `double`, kept as its bits. */
  function ParseFloatF(input: seq<byte>, st: State): (r: Result<(TargetValue, State), ParseError>)
  {
    match ReadUnsigned(input, st, 8)
    case Err(e) => Err(e)
    case Ok((bits, st1)) => Ok((Float(bits), st1))
  }

  /** `ParsePlaceholderValue`: a 4-byte index into the pool. */
  function ParsePlaceholderF(input: seq<byte>, st: State): (r: Result<(TargetValue, State), ParseError>)
  {
    match ReadUnsigned(input, st, 4)
    case Err(e) => Err(e)
    case Ok((index, st1)) =>
      if index < |st1.pool| then Ok((st1.pool[index], st1)) else Err(PlaceholderOutOfRange(index))
  }

  /** The state after the factory starts building a new array: its handle is put in the pool. */
  function StartArray(st: State): (r: State)
  {
    st.(pool := st.pool + [ArrayHandle(|st.arrays|)], arrays := st.arrays + [[]])
  }

  /** The state after `element` is pushed onto array `id`. */
  function PushElement(st: State, id: nat, element: TargetValue): (r: State)
    requires id < |st.arrays|
  {
    st.(arrays := st.arrays[id := st.arrays[id] + [element]])
  }

  /** `ParseValue`: a kind byte, then the kind's payload. */
  function ParseValueF(input: seq<byte>, st: State): (r: Result<(TargetValue, State), ParseError>)
    requires st.pos <= |input|
    ensures r.Ok? ==> st.pos < r.value.1.pos <= |input| && |st.arrays| <= |r.value.1.arrays|
    decreases |input| - st.pos, 0, 0
  {
    match ReadUnsigned(input, st, 1)
    case Err(e) => Err(e)
    case Ok((kind, st1)) =>
      if kind == KindUndefined then Ok((Undefined, st1))
      else if kind == KindNull then Ok((Null, st1))
      else if kind == KindBoolean then ParseBooleanF(input, st1)
      else if kind == KindString then ParseStringF(input, st1)
      else if kind == KindFunction then ParseFunctionF(input, st1)
      else if kind == KindInteger then ParseIntegerF(input, st1)
      else if kind == KindFloat then ParseFloatF(input, st1)
      else if kind == KindArray then ParseArrayF(input, st1)
      else if kind == KindPlaceholder then ParsePlaceholderF(input, st1)
      else Err(BadKind(kind))
  }

  /**
   * `ParseArrayValue`: a 4-byte element count; the new array enters the pool
   * before its elements are parsed.
   */
  function ParseArrayF(input: seq<byte>, st: State): (r: Result<(TargetValue, State), ParseError>)
    requires st.pos <= |input|
    ensures r.Ok? ==> st.pos < r.value.1.pos <= |input| && |st.arrays| <= |r.value.1.arrays|
    decreases |input| - st.pos, 0, 0
  {
    match ReadUnsigned(input, st, 4)
    case Err(e) => Err(e)
    case Ok((size, st1)) =>
      var id := |st1.arrays|;
      match ParseElementsF(input, StartArray(st1), id, size)
      case Err(e) => Err(e)
      case Ok(st2) => Ok((ArrayHandle(id), st2))
  }

  /** The element loop of `ParseArrayValue`: `count` more values, each pushed onto array `id`. */
  function ParseElementsF(input: seq<byte>, st: State, id: nat, count: nat): (r: Result<State, ParseError>)
    requires st.pos <= |input| && id < |st.arrays|
    ensures r.Ok? ==> st.pos <= r.value.pos <= |input| && |st.arrays| <= |r.value.arrays|
    decreases |input| - st.pos, 1, count
  {
    if count == 0 then Ok(st)
    else
      match ParseValueF(input, st)
      case Err(e) => Err(e)
      case Ok((element, st1)) => ParseElementsF(input, PushElement(st1, id, element), id, count - 1)
  }

  /** The argument loop of `ParseCall`: `count` more values appended to `acc`. */
  function ParseArgsF(input: seq<byte>, st: State, count: nat, acc: seq<TargetValue>): (r: Result<(seq<TargetValue>, State), ParseError>)
    requires st.pos <= |input|
    ensures r.Ok? ==> st.pos <= r.value.1.pos <= |input|
    decreases count
  {
    if count == 0 then Ok((acc, st))
    else
      match ParseValueF(input, st)
      case Err(e) => Err(e)
      case Ok((arg, st1)) => ParseArgsF(input, st1, count - 1, acc + [arg])
  }

  /** The state after the executor runs a call: the invocation is recorded and its result enters the pool. */
  function Invoke(st: State, call: Invocation): (r: State)
  {
    st.(calls := st.calls + [call], pool := st.pool + [Returned(|st.calls|)])
  }

  /** `ParseCall`: a 4-byte function id, the receiver, a 4-byte argument count and the arguments. */
  function ParseCallF(input: seq<byte>, st: State): (r: Result<State, ParseError>)
    requires st.pos <= |input|
    ensures r.Ok? ==> st.pos < r.value.pos <= |input|
  {
    match ReadUnsigned(input, st, 4)
    case Err(e) => Err(e)
    case Ok((funcId, st1)) =>
      match ParseValueF(input, st1)
      case Err(e) => Err(e)
      case Ok((receiver, st2)) => ParseCallTailF(input, st2, funcId, receiver)
  }

  /** The rest of `ParseCall` once the receiver is built: the argument count, the arguments and the run. */
  function ParseCallTailF(input: seq<byte>, st: State, funcId: u32, receiver: TargetValue): (r: Result<State, ParseError>)
    requires st.pos <= |input|
    ensures r.Ok? ==> st.pos < r.value.pos <= |input|
  {
    match ReadUnsigned(input, st, 4)
    case Err(e) => Err(e)
    case Ok((argsCount, st1)) =>
      match ParseArgsF(input, st1, argsCount, [])
      case Err(e) => Err(e)
      case Ok((args, st2)) => Ok(Invoke(st2, Invocation(funcId, receiver, args)))
  }

  /** The call loop of `ParseAndRun`: `count` more calls. */
  function ParseCallsF(input: seq<byte>, st: State, count: nat): (r: Result<State, ParseError>)
    requires st.pos <= |input|
    ensures r.Ok? ==> st.pos <= r.value.pos <= |input|
    decreases count
  {
    if count == 0 then Ok(st)
    else
      match ParseCallF(input, st)
      case Err(e) => Err(e)
      case Ok(st1) => ParseCallsF(input, st1, count - 1)
  }

  /** One more call of the call loop: its failure ends the loop, its success leaves one call fewer. */
  lemma ParseCallsStep(input: seq<byte>, st: State, count: nat)
    requires st.pos <= |input| && count > 0
    ensures ParseCallF(input, st).Err? ==> ParseCallsF(input, st, count) == Err(ParseCallF(input, st).error)
    ensures ParseCallF(input, st).Ok? ==> ParseCallsF(input, st, count) == ParseCallsF(input, ParseCallF(input, st).value, count - 1)
  {
  }

  /** `ParseAndRun`: the pool is cleared, then a 4-byte call count and that many calls are read. */
  function ParseAndRunF(input: seq<byte>, st: State): (r: Result<State, ParseError>)
    requires st.pos <= |input|
  {
    match ReadUnsigned(input, st.(pool := []), 4)
    case Err(e) => Err(e)
    case Ok((count, st1)) => ParseCallsF(input, st1, count)
  }

  /** The result of a method agrees with its specification function: the same value and new state, or the same error. */
  ghost predicate Agrees<T>(r: Result<T, ParseError>, st: State, f: Result<(T, State), ParseError>)
  {
    match r
    case Ok(v) => f == Ok((v, st))
    case Err(e) => f == Err(e)
  }

  /** The same, for a specification function that only produces a new state. */
  ghost predicate AgreesState(r: Result<(), ParseError>, st: State, f: Result<State, ParseError>)
  {
    match r
    case Ok(_) => f == Ok(st)
    case Err(e) => f == Err(e)
  }

  /**
   * A value as a test case describes it, before the target builds it: an
   * array holds its elements and a placeholder names a pool slot.
   */
  datatype WireValue =
    | WUndefined
    | WNull
    | WBoolean(boolean: bool)
    | WString(bytes: seq<byte>)
    | WFunction(funcId: u32)
    | WInteger(integer: i32)
    | WFloat(bits: u64)
    | WArray(elements: seq<WireValue>)
    | WPlaceholder(index: nat)

  /** A call as a test case describes it. */
  datatype WireCall = WireCall(funcId: u32, receiver: WireValue, args: seq<WireValue>)

  /** The number of values of a 4-byte field. */
  const Limit32: nat := 0x1_0000_0000

  /** Every length, count and index of the value fits in its 4-byte field. */
  predicate Encodable(w: WireValue)
    decreases w
  {
    match w
    case WString(bs) => |bs| < Limit32
    case WArray(es) => |es| < Limit32 && forall i :: 0 <= i < |es| ==> Encodable(es[i])
    case WPlaceholder(index) => index < Limit32
    case _ => true
  }

  /** The same, for each of a list of values. */
  predicate AllEncodable(ws: seq<WireValue>)
  {
    forall i :: 0 <= i < |ws| ==> Encodable(ws[i])
  }

  /** The same, for a call: its receiver, its argument count and its arguments. */
  predicate CallEncodable(c: WireCall)
  {
    Encodable(c.receiver) && |c.args| < Limit32 && AllEncodable(c.args)
  }

  /** The bytes the parser reads for a value: the kind byte, then its payload. */
  function EncodeValue(w: WireValue): (r: seq<byte>)
    ensures |r| >= 1
    decreases w
  {
    match w
    case WUndefined => [KindUndefined]
    case WNull => [KindNull]
    case WBoolean(b) => [KindBoolean] + [if b then 1 else 0]
    case WString(bs) => [KindString] + (ToLittleEndian(|bs|, 4) + bs)
    case WFunction(id) => [KindFunction] + ToLittleEndian(id, 4)
    case WInteger(i) => [KindInteger] + ToLittleEndian(i % Limit32, 4)
    case WFloat(bits) => [KindFloat] + ToLittleEndian(bits, 8)
    case WArray(es) => [KindArray] + (ToLittleEndian(|es|, 4) + EncodeValues(es))
    case WPlaceholder(index) => [KindPlaceholder] + ToLittleEndian(index, 4)
  }

  /** The encodings of a list of values, one after the other. */
  function EncodeValues(ws: seq<WireValue>): (r: seq<byte>)
    decreases ws
  {
    if ws == [] then [] else EncodeValue(ws[0]) + EncodeValues(ws[1..])
  }

  /** The bytes of a call: the function id, the receiver, the argument count and the arguments. */
  function EncodeCall(c: WireCall): (r: seq<byte>)
  {
    ToLittleEndian(c.funcId, 4) + (EncodeValue(c.receiver) + (ToLittleEndian(|c.args|, 4) + EncodeValues(c.args)))
  }

  /** The encodings of a list of calls, one after the other. */
  function EncodeCalls(cs: seq<WireCall>): (r: seq<byte>)
  {
    if cs == [] then [] else EncodeCall(cs[0]) + EncodeCalls(cs[1..])
  }

  /** The bytes of a test case: the call count, then the calls. */
  function EncodeTestCase(cs: seq<WireCall>): (r: seq<byte>)
  {
    ToLittleEndian(|cs|, 4) + EncodeCalls(cs)
  }

  /**
   * What building a described value does, stated on the description rather
   * than on bytes: the value the factory hands back, the state after it, with
   * the position advanced past the value's encoding. An array enters the pool
   * before its elements are built; a placeholder takes a value out of the pool
   * and fails when its slot does not exist yet.
   */
  function DenoteValue(w: WireValue, st: State): (r: Result<(TargetValue, State), ParseError>)
    ensures r.Ok? ==> |st.arrays| <= |r.value.1.arrays|
    decreases w
  {
    match w
    case WUndefined => Ok((Undefined, st.(pos := st.pos + 1)))
    case WNull => Ok((Null, st.(pos := st.pos + 1)))
    case WBoolean(b) => Ok((Boolean(b), st.(pos := st.pos + 2)))
    case WString(bs) => Ok((String(bs), st.(pos := st.pos + 5 + |bs|)))
    case WFunction(id) => Ok((Function(id), st.(pos := st.pos + 5)))
    case WInteger(i) => Ok((Integer(i), st.(pos := st.pos + 5)))
    case WFloat(bits) => Ok((Float(bits), st.(pos := st.pos + 9)))
    case WArray(es) =>
      var id := |st.arrays|;
      (match DenoteElements(es, StartArray(st.(pos := st.pos + 5)), id)
       case Err(e) => Err(e)
       case Ok(st1) => Ok((ArrayHandle(id), st1)))
    case WPlaceholder(index) =>
      if index < |st.pool| then Ok((st.pool[index], st.(pos := st.pos + 5))) else Err(PlaceholderOutOfRange(index))
  }

  /** Building the elements of array `id`, in order, each pushed onto it as it is built. */
  function DenoteElements(ws: seq<WireValue>, st: State, id: nat): (r: Result<State, ParseError>)
    requires id < |st.arrays|
    ensures r.Ok? ==> |st.arrays| <= |r.value.arrays|
    decreases ws
  {
    if ws == [] then Ok(st)
    else
      match DenoteValue(ws[0], st)
      case Err(e) => Err(e)
      case Ok((v, st1)) => DenoteElements(ws[1..], PushElement(st1, id, v), id)
  }

  /** Building the arguments of a call, in order, appended to `acc`. */
  function DenoteArgs(ws: seq<WireValue>, st: State, acc: seq<TargetValue>): (r: Result<(seq<TargetValue>, State), ParseError>)
    decreases ws
  {
    if ws == [] then Ok((acc, st))
    else
      match DenoteValue(ws[0], st)
      case Err(e) => Err(e)
      case Ok((v, st1)) => DenoteArgs(ws[1..], st1, acc + [v])
  }

  /** Running a described call: its receiver and arguments are built, then the executor runs it. */
  function DenoteCall(c: WireCall, st: State): (r: Result<State, ParseError>)
  {
    match DenoteValue(c.receiver, st.(pos := st.pos + 4))
    case Err(e) => Err(e)
    case Ok((receiver, st1)) => DenoteCallTail(c, st1, receiver)
  }

  /** The rest of a described call once its receiver is built. */
  function DenoteCallTail(c: WireCall, st: State, receiver: TargetValue): (r: Result<State, ParseError>)
  {
    match DenoteArgs(c.args, st.(pos := st.pos + 4), [])
    case Err(e) => Err(e)
    case Ok((args, st1)) => Ok(Invoke(st1, Invocation(c.funcId, receiver, args)))
  }

  /** Running described calls in order; the first failure stops the run. */
  function DenoteCalls(cs: seq<WireCall>, st: State): (r: Result<State, ParseError>)
    decreases cs
  {
    if cs == [] then Ok(st)
    else
      match DenoteCall(cs[0], st)
      case Err(e) => Err(e)
      case Ok(st1) => DenoteCalls(cs[1..], st1)
  }

  /** Running a described test case: the pool starts empty and the calls run in order. */
  function DenoteTestCase(cs: seq<WireCall>, st: State): (r: Result<State, ParseError>)
  {
    DenoteCalls(cs, st.(pos := st.pos + 4, pool := []))
  }

  /** The stream holds `bytes` at position `pos`. */
  predicate At(input: seq<byte>, pos: nat, bytes: seq<byte>)
  {
    pos + |bytes| <= |input| && input[pos..pos + |bytes|] == bytes
  }

  /** Bytes held at a position are held piece by piece. */
  lemma AtSplit(input: seq<byte>, pos: nat, a: seq<byte>, b: seq<byte>)
    requires At(input, pos, a + b)
    ensures At(input, pos, a) && At(input, pos + |a|, b)
  {
    assert input[pos..pos + |a|] == (a + b)[..|a|];
    assert input[pos + |a|..pos + |a| + |b|] == (a + b)[|a|..];
  }

  /** Reading a kind byte that the stream holds. */
  lemma ReadByteAt(input: seq<byte>, st: State, b: byte, rest: seq<byte>)
    requires At(input, st.pos, [b] + rest)
    ensures ReadUnsigned(input, st, 1) == Ok((b, st.(pos := st.pos + 1)))
    ensures At(input, st.pos + 1, rest)
  {
    AtSplit(input, st.pos, [b], rest);
    assert input[st.pos..st.pos + 1] == [b];
    assert LittleEndian([b]) == b + 256 * LittleEndian([]);
  }

  /** Reading an `n`-byte field that the stream holds gives back the value written there. */
  lemma ReadFieldAt(input: seq<byte>, st: State, x: int, n: nat, rest: seq<byte>)
    requires 0 <= x < Pow256(n)
    requires At(input, st.pos, ToLittleEndian(x, n) + rest)
    ensures ReadUnsigned(input, st, n) == Ok((x, st.(pos := st.pos + n)))
    ensures At(input, st.pos + n, rest)
  {
    AtSplit(input, st.pos, ToLittleEndian(x, n), rest);
    LittleEndianRoundTrip(x, n);
  }

  /** An `int32_t` written as its two's-complement bits reads back as itself. */
  lemma I32RoundTrip(i: i32)
    ensures ToI32(i % Limit32) == i
  {
  }

  /** The kind byte and a payload that is not read further. */
  lemma ReadKindAt(input: seq<byte>, st: State, w: WireValue)
    requires At(input, st.pos, EncodeValue(w))
    ensures ReadUnsigned(input, st, 1) == Ok((EncodeValue(w)[0], st.(pos := st.pos + 1)))
    ensures At(input, st.pos + 1, EncodeValue(w)[1..])
  {
    var e := EncodeValue(w);
    assert e == [e[0]] + e[1..];
    ReadByteAt(input, st, e[0], e[1..]);
  }

  /** Building a described value consumes exactly its encoding. */
  lemma {:induction false} DenoteValueConsumes(w: WireValue, st: State)
    ensures DenoteValue(w, st).Ok? ==> DenoteValue(w, st).value.1.pos == st.pos + |EncodeValue(w)|
    decreases w
  {
    if w.WArray? {
      DenoteElementsConsumes(w.elements, StartArray(st.(pos := st.pos + 5)), |st.arrays|);
    }
  }

  /** Building described elements consumes exactly their encodings. */
  lemma {:induction false} DenoteElementsConsumes(ws: seq<WireValue>, st: State, id: nat)
    requires id < |st.arrays|
    ensures DenoteElements(ws, st, id).Ok? ==> DenoteElements(ws, st, id).value.pos == st.pos + |EncodeValues(ws)|
    decreases ws
  {
    if ws != [] {
      DenoteValueConsumes(ws[0], st);
      match DenoteValue(ws[0], st)
      case Err(_) =>
      case Ok((v, st1)) => DenoteElementsConsumes(ws[1..], PushElement(st1, id, v), id);
    }
  }

  /** Building described arguments consumes exactly their encodings. */
  lemma {:induction false} DenoteArgsConsumes(ws: seq<WireValue>, st: State, acc: seq<TargetValue>)
    ensures DenoteArgs(ws, st, acc).Ok? ==> DenoteArgs(ws, st, acc).value.1.pos == st.pos + |EncodeValues(ws)|
    decreases ws
  {
    if ws != [] {
      DenoteValueConsumes(ws[0], st);
      match DenoteValue(ws[0], st)
      case Err(_) =>
      case Ok((v, st1)) => DenoteArgsConsumes(ws[1..], st1, acc + [v]);
    }
  }

  /** Running a described call consumes exactly its encoding. */
  lemma DenoteCallConsumes(c: WireCall, st: State)
    ensures DenoteCall(c, st).Ok? ==> DenoteCall(c, st).value.pos == st.pos + |EncodeCall(c)|
  {
    DenoteValueConsumes(c.receiver, st.(pos := st.pos + 4));
    match DenoteValue(c.receiver, st.(pos := st.pos + 4))
    case Err(_) =>
    case Ok((receiver, st1)) =>
      DenoteArgsConsumes(c.args, st1.(pos := st1.pos + 4), []);
      assert DenoteCall(c, st) == DenoteCallTail(c, st1, receiver);
  }

  /** The tail of a list of encodable values is encodable. */
  lemma AllEncodableTail(ws: seq<WireValue>)
    requires ws != [] && AllEncodable(ws)
    ensures Encodable(ws[0]) && AllEncodable(ws[1..])
  {
    assert forall i :: 0 <= i < |ws| - 1 ==> ws[1..][i] == ws[i + 1];
  }

  /** Parsing the encoding of a value does what the value describes, errors included. */
  lemma {:induction false} ParseValueRoundTrip(input: seq<byte>, st: State, w: WireValue)
    requires st.pos <= |input| && Encodable(w) && At(input, st.pos, EncodeValue(w))
    ensures ParseValueF(input, st) == DenoteValue(w, st)
    decreases w, 1
  {
    ReadKindAt(input, st, w);
    match w
    case WUndefined =>
    case WNull =>
    case WBoolean(b) => ParseBooleanRoundTrip(input, st, b);
    case WString(bs) => ParseStringRoundTrip(input, st, bs);
    case WFunction(id) => ParseFunctionRoundTrip(input, st, id);
    case WInteger(i) => ParseIntegerRoundTrip(input, st, i);
    case WFloat(bits) => ParseFloatRoundTrip(input, st, bits);
    case WArray(es) => ParseArrayRoundTrip(input, st, w);
    case WPlaceholder(index) => ParsePlaceholderRoundTrip(input, st, index);
  }

  /** A boolean is one byte, 0 or 1. */
  lemma ParseBooleanRoundTrip(input: seq<byte>, st: State, b: bool)
    requires st.pos <= |input| && At(input, st.pos, EncodeValue(WBoolean(b)))
    ensures ParseValueF(input, st) == DenoteValue(WBoolean(b), st)
  {
    var st1 := st.(pos := st.pos + 1);
    ReadKindAt(input, st, WBoolean(b));
    assert ParseValueF(input, st) == ParseBooleanF(input, st1);
    assert EncodeValue(WBoolean(b))[1..] == [if b then 1 else 0] + [];
    ReadByteAt(input, st1, if b then 1 else 0, []);
  }

  /** A string is its 4-byte length and its bytes. */
  lemma ParseStringRoundTrip(input: seq<byte>, st: State, bs: seq<byte>)
    requires st.pos <= |input| && |bs| < Limit32 && At(input, st.pos, EncodeValue(WString(bs)))
    ensures ParseValueF(input, st) == DenoteValue(WString(bs), st)
  {
    var st1 := st.(pos := st.pos + 1);
    ReadKindAt(input, st, WString(bs));
    assert ParseValueF(input, st) == ParseStringF(input, st1);
    Pow256Four();
    assert EncodeValue(WString(bs))[1..] == ToLittleEndian(|bs|, 4) + bs;
    ReadFieldAt(input, st1, |bs|, 4, bs);
    var st2 := st1.(pos := st1.pos + 4);
    assert input[st2.pos..st2.pos + |bs|] == bs;
    assert ParseStringF(input, st1) == Ok((String(bs), st2.(pos := st2.pos + |bs|)));
    assert st2.(pos := st2.pos + |bs|) == st.(pos := st.pos + 5 + |bs|);
  }

  /** A function is its 4-byte id. */
  lemma ParseFunctionRoundTrip(input: seq<byte>, st: State, id: u32)
    requires st.pos <= |input| && At(input, st.pos, EncodeValue(WFunction(id)))
    ensures ParseValueF(input, st) == DenoteValue(WFunction(id), st)
  {
    var st1 := st.(pos := st.pos + 1);
    ReadKindAt(input, st, WFunction(id));
    assert ParseValueF(input, st) == ParseFunctionF(input, st1);
    Pow256Four();
    assert EncodeValue(WFunction(id))[1..] == ToLittleEndian(id, 4) + [];
    ReadFieldAt(input, st1, id, 4, []);
  }

  /** An integer is its 4 two's-complement bytes. */
  lemma ParseIntegerRoundTrip(input: seq<byte>, st: State, i: i32)
    requires st.pos <= |input| && At(input, st.pos, EncodeValue(WInteger(i)))
    ensures ParseValueF(input, st) == DenoteValue(WInteger(i), st)
  {
    var st1 := st.(pos := st.pos + 1);
    ReadKindAt(input, st, WInteger(i));
    assert ParseValueF(input, st) == ParseIntegerF(input, st1);
    Pow256Four();
    assert EncodeValue(WInteger(i))[1..] == ToLittleEndian(i % Limit32, 4) + [];
    ReadFieldAt(input, st1, i % Limit32, 4, []);
    I32RoundTrip(i);
  }

  /** A float is the 8 bytes of its bits. */
  lemma ParseFloatRoundTrip(input: seq<byte>, st: State, bits: u64)
    requires st.pos <= |input| && At(input, st.pos, EncodeValue(WFloat(bits)))
    ensures ParseValueF(input, st) == DenoteValue(WFloat(bits), st)
  {
    var st1 := st.(pos := st.pos + 1);
    ReadKindAt(input, st, WFloat(bits));
    assert ParseValueF(input, st) == ParseFloatF(input, st1);
    Pow256Eight();
    assert EncodeValue(WFloat(bits))[1..] == ToLittleEndian(bits, 8) + [];
    ReadFieldAt(input, st1, bits, 8, []);
  }

  /** A placeholder is its 4-byte pool index. */
  lemma ParsePlaceholderRoundTrip(input: seq<byte>, st: State, index: nat)
    requires st.pos <= |input| && index < Limit32 && At(input, st.pos, EncodeValue(WPlaceholder(index)))
    ensures ParseValueF(input, st) == DenoteValue(WPlaceholder(index), st)
  {
    var st1 := st.(pos := st.pos + 1);
    ReadKindAt(input, st, WPlaceholder(index));
    assert ParseValueF(input, st) == ParsePlaceholderF(input, st1);
    Pow256Four();
    assert EncodeValue(WPlaceholder(index))[1..] == ToLittleEndian(index, 4) + [];
    ReadFieldAt(input, st1, index, 4, []);
  }

  /** The same, for an array: its handle enters the pool, then its elements are parsed. */
  lemma {:induction false} ParseArrayRoundTrip(input: seq<byte>, st: State, w: WireValue)
    requires st.pos <= |input| && w.WArray? && Encodable(w) && At(input, st.pos, EncodeValue(w))
    ensures ParseValueF(input, st) == DenoteValue(w, st)
    decreases w, 0
  {
    var es := w.elements;
    ReadKindAt(input, st, w);
    var st1 := st.(pos := st.pos + 1);
    Pow256Four();
    assert EncodeValue(w)[1..] == ToLittleEndian(|es|, 4) + EncodeValues(es);
    ReadFieldAt(input, st1, |es|, 4, EncodeValues(es));
    var st2 := st1.(pos := st1.pos + 4);
    assert st2 == st.(pos := st.pos + 5);
    assert AllEncodable(es);
    ParseElementsRoundTrip(input, StartArray(st2), |st.arrays|, es);
  }

  /** Parsing the encodings of array elements does what the elements describe. */
  lemma {:induction false} ParseElementsRoundTrip(input: seq<byte>, st: State, id: nat, ws: seq<WireValue>)
    requires st.pos <= |input| && id < |st.arrays| && AllEncodable(ws) && At(input, st.pos, EncodeValues(ws))
    ensures ParseElementsF(input, st, id, |ws|) == DenoteElements(ws, st, id)
    decreases ws
  {
    if ws != [] {
      AllEncodableTail(ws);
      AtSplit(input, st.pos, EncodeValue(ws[0]), EncodeValues(ws[1..]));
      ParseValueRoundTrip(input, st, ws[0]);
      DenoteValueConsumes(ws[0], st);
      ElementsSplit(input, st, id, ws);
      var d := DenoteValue(ws[0], st);
      if d.Ok? {
        var v, st1 := d.value.0, d.value.1;
        ParseElementsRoundTrip(input, PushElement(st1, id, v), id, ws[1..]);
      }
    }
  }

  /** When the first element is parsed as it is described, parsing and describing the elements go on alike. */
  lemma ElementsSplit(input: seq<byte>, st: State, id: nat, ws: seq<WireValue>)
    requires st.pos <= |input| && id < |st.arrays| && ws != [] && ParseValueF(input, st) == DenoteValue(ws[0], st)
    ensures DenoteValue(ws[0], st).Err? ==> ParseElementsF(input, st, id, |ws|) == DenoteElements(ws, st, id)
    ensures DenoteValue(ws[0], st).Ok? ==>
      var (v, st1) := DenoteValue(ws[0], st).value;
      id < |st1.arrays| && PushElement(st1, id, v).pos <= |input| &&
      ParseElementsF(input, st, id, |ws|) == ParseElementsF(input, PushElement(st1, id, v), id, |ws| - 1) &&
      DenoteElements(ws, st, id) == DenoteElements(ws[1..], PushElement(st1, id, v), id)
  {
  }

  /** Parsing the encodings of arguments does what the arguments describe. */
  lemma {:induction false} ParseArgsRoundTrip(input: seq<byte>, st: State, ws: seq<WireValue>, acc: seq<TargetValue>)
    requires st.pos <= |input| && AllEncodable(ws) && At(input, st.pos, EncodeValues(ws))
    ensures ParseArgsF(input, st, |ws|, acc) == DenoteArgs(ws, st, acc)
    decreases ws
  {
    if ws != [] {
      AllEncodableTail(ws);
      AtSplit(input, st.pos, EncodeValue(ws[0]), EncodeValues(ws[1..]));
      ParseValueRoundTrip(input, st, ws[0]);
      DenoteValueConsumes(ws[0], st);
      ArgsSplit(input, st, ws, acc);
      var d := DenoteValue(ws[0], st);
      if d.Ok? {
        var v, st1 := d.value.0, d.value.1;
        ParseArgsRoundTrip(input, st1, ws[1..], acc + [v]);
      }
    }
  }

  /** When the first argument is parsed as it is described, parsing and describing the arguments go on alike. */
  lemma ArgsSplit(input: seq<byte>, st: State, ws: seq<WireValue>, acc: seq<TargetValue>)
    requires st.pos <= |input| && ws != [] && ParseValueF(input, st) == DenoteValue(ws[0], st)
    ensures DenoteValue(ws[0], st).Err? ==> ParseArgsF(input, st, |ws|, acc) == DenoteArgs(ws, st, acc)
    ensures DenoteValue(ws[0], st).Ok? ==>
      var (v, st1) := DenoteValue(ws[0], st).value;
      st1.pos <= |input| &&
      ParseArgsF(input, st, |ws|, acc) == ParseArgsF(input, st1, |ws| - 1, acc + [v]) &&
      DenoteArgs(ws, st, acc) == DenoteArgs(ws[1..], st1, acc + [v])
  {
  }

  /** Parsing the encoding of a call does what the call describes. */
  lemma ParseCallRoundTrip(input: seq<byte>, st: State, c: WireCall)
    requires st.pos <= |input| && CallEncodable(c) && At(input, st.pos, EncodeCall(c))
    ensures ParseCallF(input, st) == DenoteCall(c, st)
  {
    var tail := ToLittleEndian(|c.args|, 4) + EncodeValues(c.args);
    Pow256Four();
    ReadFieldAt(input, st, c.funcId, 4, EncodeValue(c.receiver) + tail);
    var st1 := st.(pos := st.pos + 4);
    AtSplit(input, st1.pos, EncodeValue(c.receiver), tail);
    ParseValueRoundTrip(input, st1, c.receiver);
    DenoteValueConsumes(c.receiver, st1);
    var d := DenoteValue(c.receiver, st1);
    if d.Ok? {
      var receiver, st2 := d.value.0, d.value.1;
      ParseCallSplits(input, st, c, receiver, st2);
      assert At(input, st2.pos, tail);
      ParseCallTailRoundTrip(input, st2, c, receiver);
    }
  }

  /** Once the function id and the receiver are read as described, the call and its description go on alike. */
  lemma ParseCallSplits(input: seq<byte>, st: State, c: WireCall, receiver: TargetValue, st2: State)
    requires st.pos + 4 <= |input| && ReadUnsigned(input, st, 4) == Ok((c.funcId, st.(pos := st.pos + 4)))
    requires ParseValueF(input, st.(pos := st.pos + 4)) == Ok((receiver, st2))
    requires DenoteValue(c.receiver, st.(pos := st.pos + 4)) == Ok((receiver, st2))
    ensures ParseCallF(input, st) == ParseCallTailF(input, st2, c.funcId, receiver)
    ensures DenoteCall(c, st) == DenoteCallTail(c, st2, receiver)
  {
  }

  /** The same, for the rest of a call once its receiver is built. */
  lemma ParseCallTailRoundTrip(input: seq<byte>, st: State, c: WireCall, receiver: TargetValue)
    requires st.pos <= |input| && |c.args| < Limit32 && AllEncodable(c.args)
    requires At(input, st.pos, ToLittleEndian(|c.args|, 4) + EncodeValues(c.args))
    ensures ParseCallTailF(input, st, c.funcId, receiver) == DenoteCallTail(c, st, receiver)
  {
    Pow256Four();
    ReadFieldAt(input, st, |c.args|, 4, EncodeValues(c.args));
    ParseArgsRoundTrip(input, st.(pos := st.pos + 4), c.args, []);
  }

  /** Every call of the list is encodable. */
  predicate AllCallsEncodable(cs: seq<WireCall>)
  {
    forall i :: 0 <= i < |cs| ==> CallEncodable(cs[i])
  }

  /** Parsing the encodings of calls does what the calls describe. */
  lemma {:induction false} ParseCallsRoundTrip(input: seq<byte>, st: State, cs: seq<WireCall>)
    requires st.pos <= |input| && AllCallsEncodable(cs) && At(input, st.pos, EncodeCalls(cs))
    ensures ParseCallsF(input, st, |cs|) == DenoteCalls(cs, st)
    decreases cs
  {
    if cs != [] {
      assert CallEncodable(cs[0]);
      assert AllCallsEncodable(cs[1..]) by {
        assert forall i :: 0 <= i < |cs| - 1 ==> cs[1..][i] == cs[i + 1];
      }
      AtSplit(input, st.pos, EncodeCall(cs[0]), EncodeCalls(cs[1..]));
      ParseCallRoundTrip(input, st, cs[0]);
      DenoteCallConsumes(cs[0], st);
      match DenoteCall(cs[0], st)
      case Err(_) =>
      case Ok(st1) => ParseCallsRoundTrip(input, st1, cs[1..]);
    }
  }

  /**
   * The wire format's round trip: parsing and running the encoding of a test
   * case does exactly what the described test case does.
   */
  lemma ParseAndRunRoundTrip(input: seq<byte>, st: State, cs: seq<WireCall>)
    requires st.pos <= |input| && |cs| < Limit32 && AllCallsEncodable(cs) && At(input, st.pos, EncodeTestCase(cs))
    ensures ParseAndRunF(input, st) == DenoteTestCase(cs, st)
  {
    Pow256Four();
    ReadFieldAt(input, st.(pool := []), |cs|, 4, EncodeCalls(cs));
    ParseCallsRoundTrip(input, st.(pos := st.pos + 4, pool := []), cs);
  }

  /** Parsing a whole encoded test case from a fresh parser does what the test case describes. */
  lemma ParseEncodedTestCase(cs: seq<WireCall>)
    requires |cs| < Limit32 && AllCallsEncodable(cs)
    ensures ParseAndRunF(EncodeTestCase(cs), State(0, [], [], [])) == DenoteTestCase(cs, State(0, [], [], []))
  {
    var input := EncodeTestCase(cs);
    assert input[0..|input|] == input;
    ParseAndRunRoundTrip(input, State(0, [], [], []), cs);
  }

  /**
   * A described run that succeeds hands every call to the executor, in
   * order, with the described function ids, and puts one result per call
   * in the pool.
   */
  lemma {:induction false} DenoteCallsRecords(cs: seq<WireCall>, st: State)
    ensures DenoteCalls(cs, st).Ok? ==>
      var st1 := DenoteCalls(cs, st).value;
      |st1.calls| == |st.calls| + |cs| && st1.calls[..|st.calls|] == st.calls &&
      (forall i :: 0 <= i < |cs| ==> st1.calls[|st.calls| + i].funcId == cs[i].funcId) &&
      |st1.pool| >= |st.pool| + |cs|
    decreases cs
  {
    if cs != [] {
      match DenoteCall(cs[0], st)
      case Err(_) =>
      case Ok(st1) =>
        DenoteCallRecords(cs[0], st);
        DenoteCallsRecords(cs[1..], st1);
        var st2 := DenoteCalls(cs, st);
        assert st2 == DenoteCalls(cs[1..], st1);
        if st2.Ok? {
          forall i | 0 <= i < |cs|
            ensures st2.value.calls[|st.calls| + i].funcId == cs[i].funcId
          {
            if i > 0 {
              assert cs[1..][i - 1] == cs[i];
              assert st2.value.calls[|st1.calls| + (i - 1)].funcId == cs[i].funcId;
            } else {
              assert st2.value.calls[..|st1.calls|] == st1.calls;
              assert st2.value.calls[|st.calls|] == st1.calls[|st.calls|];
            }
          }
          assert st2.value.calls[..|st.calls|] == st2.value.calls[..|st1.calls|][..|st.calls|];
        }
    }
  }

  /** A described call that succeeds is recorded once, after the earlier ones, and its result enters the pool. */
  lemma DenoteCallRecords(c: WireCall, st: State)
    ensures DenoteCall(c, st).Ok? ==>
      var st1 := DenoteCall(c, st).value;
      |st1.calls| == |st.calls| + 1 && st1.calls[..|st.calls|] == st.calls &&
      st1.calls[|st.calls|].funcId == c.funcId && |st1.pool| >= |st.pool| + 1
  {
    DenoteValueGrows(c.receiver, st.(pos := st.pos + 4));
    match DenoteValue(c.receiver, st.(pos := st.pos + 4))
    case Err(_) =>
    case Ok((receiver, st1)) =>
      DenoteArgsGrows(c.args, st1.(pos := st1.pos + 4), []);
  }

  /** Building a value keeps the recorded calls and never shrinks the pool. */
  lemma {:induction false} DenoteValueGrows(w: WireValue, st: State)
    ensures DenoteValue(w, st).Ok? ==>
      DenoteValue(w, st).value.1.calls == st.calls && |DenoteValue(w, st).value.1.pool| >= |st.pool|
    decreases w
  {
    if w.WArray? {
      DenoteElementsGrows(w.elements, StartArray(st.(pos := st.pos + 5)), |st.arrays|);
    }
  }

  /** The same, for array elements. */
  lemma {:induction false} DenoteElementsGrows(ws: seq<WireValue>, st: State, id: nat)
    requires id < |st.arrays|
    ensures DenoteElements(ws, st, id).Ok? ==>
      DenoteElements(ws, st, id).value.calls == st.calls && |DenoteElements(ws, st, id).value.pool| >= |st.pool|
    decreases ws
  {
    if ws != [] {
      DenoteValueGrows(ws[0], st);
      match DenoteValue(ws[0], st)
      case Err(_) =>
      case Ok((v, st1)) => DenoteElementsGrows(ws[1..], PushElement(st1, id, v), id);
    }
  }

  /** The same, for arguments. */
  lemma {:induction false} DenoteArgsGrows(ws: seq<WireValue>, st: State, acc: seq<TargetValue>)
    ensures DenoteArgs(ws, st, acc).Ok? ==>
      DenoteArgs(ws, st, acc).value.1.calls == st.calls && |DenoteArgs(ws, st, acc).value.1.pool| >= |st.pool|
    decreases ws
  {
    if ws != [] {
      DenoteValueGrows(ws[0], st);
      match DenoteValue(ws[0], st)
      case Err(_) =>
      case Ok((v, st1)) => DenoteArgsGrows(ws[1..], st1, acc + [v]);
    }
  }

  /** A parser over one input stream; the pool and the recorded invocations are updated in place. */
  class TestCaseParser {
    const input: seq<byte>
    var pos: nat
    var pool: seq<TargetValue>
    var arrays: seq<seq<TargetValue>>
    var calls: seq<Invocation>

    ghost predicate Valid()
      reads this
    {
      pos <= |input|
    }

    /** The parser's fields as one state. */
    function CurrentState(): State
      reads this
    {
      State(pos, pool, arrays, calls)
    }

    /** A new parser reads from the start of the stream and has an empty pool. */
    constructor (input: seq<byte>)
      ensures Valid() && this.input == input && CurrentState() == State(0, [], [], [])
    {
      this.input := input;
      pos := 0;
      pool := [];
      arrays := [];
      calls := [];
    }

    /** `ReadInt` of an unsigned `n`-byte integer consumes exactly `n` bytes. */
    method ReadInt(n: nat) returns (r: Result<nat, ParseError>)
      requires Valid()
      modifies this
      ensures Valid()
      ensures Agrees(r, CurrentState(), ReadUnsigned(input, old(CurrentState()), n))
      ensures r.Ok? ==> pos == old(pos) + n && r.value < Pow256(n)
    {
      if pos + n <= |input| {
        r := Ok(LittleEndian(input[pos..pos + n]));
        pos := pos + n;
      } else {
        r := Err(Truncated);
      }
    }

    method ParseBooleanValue() returns (r: Result<TargetValue, ParseError>)
      requires Valid()
      modifies this
      ensures Valid()
      ensures Agrees(r, CurrentState(), ParseBooleanF(input, old(CurrentState())))
    {
      var value := ReadInt(1);
      if value.Err? {
        return Err(value.error);
      }
      if value.value == 0 || value.value == 1 {
        r := Ok(Boolean(value.value == 1));
      } else {
        r := Err(BadBoolean(value.value));
      }
    }

    method ParseStringValue() returns (r: Result<TargetValue, ParseError>)
      requires Valid()
      modifies this
      ensures Valid()
      ensures Agrees(r, CurrentState(), ParseStringF(input, old(CurrentState())))
    {
      var size := ReadInt(4);
      if size.Err? {
        return Err(size.error);
      }
      if pos + size.value <= |input| {
        r := Ok(String(input[pos..pos + size.value]));
        pos := pos + size.value;
      } else {
        r := Err(Truncated);
      }
    }

    method ParseFunctionValue() returns (r: Result<TargetValue, ParseError>)
      requires Valid()
      modifies this
      ensures Valid()
      ensures Agrees(r, CurrentState(), ParseFunctionF(input, old(CurrentState())))
    {
      var funcId := ReadInt(4);
      if funcId.Err? {
        return Err(funcId.error);
      }
      r := Ok(Function(funcId.value));
    }

    method ParseIntegerValue() returns (r: Result<TargetValue, ParseError>)
      requires Valid()
      modifies this
      ensures Valid()
      ensures Agrees(r, CurrentState(), ParseIntegerF(input, old(CurrentState())))
    {
      var value := ReadInt(4);
      if value.Err? {
        return Err(value.error);
      }
      r := Ok(Integer(ToI32(value.value)));
    }

    method ParseFloatValue() returns (r: Result<TargetValue, ParseError>)
      requires Valid()
      modifies this
      ensures Valid()
      ensures Agrees(r, CurrentState(), ParseFloatF(input, old(CurrentState())))
    {
      var bits := ReadInt(8);
      if bits.Err? {
        return Err(bits.error);
      }
      r := Ok(Float(bits.value));
    }

    method ParsePlaceholderValue() returns (r: Result<TargetValue, ParseError>)
      requires Valid()
      modifies this
      ensures Valid()
      ensures Agrees(r, CurrentState(), ParsePlaceholderF(input, old(CurrentState())))
    {
      var index := ReadInt(4);
      if index.Err? {
        return Err(index.error);
      }
      if index.value < |pool| {
        r := Ok(pool[index.value]);
      } else {
        r := Err(PlaceholderOutOfRange(index.value));
      }
    }

    method ParseArrayValue() returns (r: Result<TargetValue, ParseError>)
      requires Valid()
      modifies this
      ensures Valid()
      ensures Agrees(r, CurrentState(), ParseArrayF(input, old(CurrentState())))
      decreases |input| - pos, 1
    {
      var size := ReadInt(4);
      if size.Err? {
        return Err(size.error);
      }
      var id := |arrays|;
      pool := pool + [ArrayHandle(id)];
      arrays := arrays + [[]];
      ghost var start := CurrentState();
      var i := 0;
      while i < size.value
        invariant Valid() && i <= size.value && id < |arrays| && pos >= old(pos) + 4
        invariant ParseElementsF(input, start, id, size.value) == ParseElementsF(input, CurrentState(), id, size.value - i)
      {
        var element := ParseValue();
        if element.Err? {
          return Err(element.error);
        }
        arrays := arrays[id := arrays[id] + [element.value]];
        i := i + 1;
      }
      r := Ok(ArrayHandle(id));
    }

    /** `ParseValue` dispatches on the kind byte; a kind outside 0..8 stops parsing. */
    method ParseValue() returns (r: Result<TargetValue, ParseError>)
      requires Valid()
      modifies this
      ensures Valid()
      ensures Agrees(r, CurrentState(), ParseValueF(input, old(CurrentState())))
      decreases |input| - pos, 2
    {
      var kind := ReadInt(1);
      if kind.Err? {
        return Err(kind.error);
      }
      var k := kind.value;
      if k == KindUndefined {
        r := Ok(Undefined);
      } else if k == KindNull {
        r := Ok(Null);
      } else if k == KindBoolean {
        r := ParseBooleanValue();
      } else if k == KindString {
        r := ParseStringValue();
      } else if k == KindFunction {
        r := ParseFunctionValue();
      } else if k == KindInteger {
        r := ParseIntegerValue();
      } else if k == KindFloat {
        r := ParseFloatValue();
      } else if k == KindArray {
        r := ParseArrayValue();
      } else if k == KindPlaceholder {
        r := ParsePlaceholderValue();
      } else {
        r := Err(BadKind(k));
      }
    }

    /** The argument loop of `ParseCall`: `count` values, in order. */
    method ParseArgs(count: nat) returns (r: Result<seq<TargetValue>, ParseError>)
      requires Valid()
      modifies this
      ensures Valid()
      ensures Agrees(r, CurrentState(), ParseArgsF(input, old(CurrentState()), count, []))
    {
      var args: seq<TargetValue> := [];
      ghost var start := CurrentState();
      var i := 0;
      while i < count
        invariant Valid() && i <= count
        invariant ParseArgsF(input, start, count, []) == ParseArgsF(input, CurrentState(), count - i, args)
      {
        var arg := ParseValue();
        if arg.Err? {
          return Err(arg.error);
        }
        args := args + [arg.value];
        i := i + 1;
      }
      r := Ok(args);
    }

    /** `ParseCall` reads one call, hands it to the executor and appends the result to the pool. */
    method ParseCall() returns (r: Result<(), ParseError>)
      requires Valid()
      modifies this
      ensures Valid()
      ensures AgreesState(r, CurrentState(), ParseCallF(input, old(CurrentState())))
    {
      var funcId := ReadInt(4);
      if funcId.Err? {
        return Err(funcId.error);
      }
      var thisValue := ParseValue();
      if thisValue.Err? {
        return Err(thisValue.error);
      }
      var argsCount := ReadInt(4);
      if argsCount.Err? {
        return Err(argsCount.error);
      }
      var args := ParseArgs(argsCount.value);
      if args.Err? {
        return Err(args.error);
      }
      var ret := Returned(|calls|);
      calls := calls + [Invocation(funcId.value, thisValue.value, args.value)];
      pool := pool + [ret];
      r := Ok(());
    }

    /** One pass of the call loop of `ParseAndRun`: one call parsed, as the rest of the loop then goes on. */
    method ParseNextCall(remaining: nat) returns (r: Result<(), ParseError>)
      requires Valid() && remaining > 0
      modifies this
      ensures Valid()
      ensures r.Err? ==> ParseCallsF(input, old(CurrentState()), remaining) == Err(r.error)
      ensures r.Ok? ==> ParseCallsF(input, old(CurrentState()), remaining) == ParseCallsF(input, CurrentState(), remaining - 1)
    {
      ParseCallsStep(input, CurrentState(), remaining);
      r := ParseCall();
    }

    /** The call loop of `ParseAndRun`: `count` calls, in order, counted down as the source does. */
    method ParseCalls(count: nat) returns (r: Result<(), ParseError>)
      requires Valid()
      modifies this
      ensures Valid()
      ensures AgreesState(r, CurrentState(), ParseCallsF(input, old(CurrentState()), count))
    {
      ghost var goal := ParseCallsF(input, CurrentState(), count);
      var remaining := count;
      while remaining > 0
        invariant Valid()
        invariant ParseCallsF(input, CurrentState(), remaining) == goal
      {
        var call := ParseNextCall(remaining);
        if call.Err? {
          return Err(call.error);
        }
        remaining := remaining - 1;
      }
      r := Ok(());
    }

    /** `ParseAndRun` clears the pool, reads the call count and parses exactly that many calls. */
    method ParseAndRun() returns (r: Result<(), ParseError>)
      requires Valid()
      modifies this
      ensures Valid()
      ensures AgreesState(r, CurrentState(), ParseAndRunF(input, old(CurrentState())))
    {
      pool := [];
      var callsCount := ReadInt(4);
      if callsCount.Err? {
        return Err(callsCount.error);
      }
      r := ParseCalls(callsCount.value);
    }
  }
}
