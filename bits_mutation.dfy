/**
 * The in-buffer mutations of a bits value (src/Fuzzer/TestCaseMutator.cpp):
 * flipping `width` consecutive bits, inverting `width` consecutive bytes,
 * and adding a small delta to a `width`-byte integer, and the choice among
 * them that `MutateBitsValue` offers for a value of a given size.
 *
 * The buffer is an `array<byte>` changed in place. The source reads and
 * stores multi-byte integers through `uint16_t*`, `uint32_t*` and
 * `int32_t*` casts, in the host's byte order; the model assumes a
 * little-endian host and reads and stores least significant byte first.
 * Random draws are parameters whose `requires` state the range they are
 * drawn from.
 */
module BitsMutation {
  import opened MachineInts
  import opened BitOps

  /** `x ^ m` on two bytes. */
  function XorByte(a: byte, m: byte): (r: byte)
    ensures forall k :: 0 <= k < 8 ==> (Bit(r, k) <==> Bit(a, k) != Bit(m, k))
  {
    Pow2Eight();
    XorBound(a, m, 8);
    forall k | 0 <= k < 8
      ensures Bit(Xor(a, m), k) <==> Bit(a, k) != Bit(m, k)
    {
      XorBit(a, m, k);
    }
    Xor(a, m)
  }

  /** `buffer[i] ^= m` with an `int` mask: the exclusive or, stored back into a byte. */
  function XorInto(a: byte, m: nat): (r: byte)
    ensures forall k :: 0 <= k < 8 ==> (Bit(r, k) <==> Bit(a, k) != Bit(m, k))
  {
    Pow2Eight();
    forall k | 0 <= k < 8
      ensures Bit(ToU8(Xor(a, m)), k) <==> Bit(a, k) != Bit(m, k)
    {
      ModBit(Xor(a, m), 8, k);
      XorBit(a, m, k);
    }
    ToU8(Xor(a, m))
  }

  /** Bit `j` of a buffer: bit `j % 8` of byte `j / 8`. */
  predicate BufferBit(data: seq<byte>, j: nat)
    requires j < 8 * |data|
  {
    Bit(data[j / 8], j % 8)
  }

  /** Two bytes with the same eight bits are equal. */
  lemma {:induction false} BitsDetermine(a: nat, b: nat, n: nat)
    requires a < Pow2(n) && b < Pow2(n)
    requires forall k :: 0 <= k < n ==> (Bit(a, k) <==> Bit(b, k))
    ensures a == b
    decreases n
  {
    if n > 0 {
      assert Bit(a, 0) <==> Bit(b, 0);
      forall k | 0 <= k < n - 1
        ensures Bit(a / 2, k) <==> Bit(b / 2, k)
      {
        assert Bit(a, k + 1) <==> Bit(b, k + 1);
      }
      BitsDetermine(a / 2, b / 2, n - 1);
    }
  }

  /** Two buffers of one length with the same bits are equal. */
  lemma BufferBitsDetermine(x: seq<byte>, y: seq<byte>)
    requires |x| == |y|
    requires forall j :: 0 <= j < 8 * |x| ==> BufferBit(x, j) == BufferBit(y, j)
    ensures x == y
  {
    Pow2Eight();
    forall i | 0 <= i < |x|
      ensures x[i] == y[i]
    {
      forall k | 0 <= k < 8
        ensures Bit(x[i], k) <==> Bit(y[i], k)
      {
        var j := 8 * i + k;
        assert j / 8 == i && j % 8 == k;
        assert BufferBit(x, j) == BufferBit(y, j);
      }
      BitsDetermine(x[i], y[i], 8);
    }
  }

  // ---------------------------------------------------------------------
  // FlipBits
  // ---------------------------------------------------------------------

  /** A bit-flip width: the callers pass 1, 2 or 4, and the mask then spans at most two bytes. */
  predicate FlipWidth(width: nat)
  {
    1 <= width <= 8
  }

  /**
   * `FlipBits` as written: the mask `((1 << width) - 1) << (offset % 8)` is
   * XORed into the one byte `offset / 8`, so the mask bits that fall past
   * bit 7 are dropped.
   */
  function FlipBitsAsWrittenF(data: seq<byte>, offset: nat, width: nat): (r: seq<byte>)
    requires FlipWidth(width) && offset + width <= 8 * |data|
    ensures |r| == |data|
    ensures forall i :: 0 <= i < |r| && i != offset / 8 ==> r[i] == data[i]
  {
    var b := offset / 8;
    data[b := XorInto(data[b], Mask(offset % 8, width))]
  }

  /**
   * `FlipBits` as intended: the mask bits past bit 7 are XORed into the
   * next byte, so exactly the `width` bits from bit `offset` on flip.
   */
  function FlipBitsF(data: seq<byte>, offset: nat, width: nat): (r: seq<byte>)
    requires FlipWidth(width) && offset + width <= 8 * |data|
    ensures |r| == |data|
  {
    var b := offset / 8;
    var m := Mask(offset % 8, width);
    var low := data[b := XorInto(data[b], m)];
    if offset % 8 + width <= 8 then low
    else low[b + 1 := XorInto(low[b + 1], m / 256)]
  }

  /** After `FlipBitsF` a bit of the buffer is flipped exactly when it is one of the `width` bits from `offset`. */
  lemma FlipBitsFlips(data: seq<byte>, offset: nat, width: nat, j: nat)
    requires FlipWidth(width) && offset + width <= 8 * |data| && j < 8 * |data|
    ensures BufferBit(FlipBitsF(data, offset, width), j) == (BufferBit(data, j) != (offset <= j < offset + width))
  {
    var r := FlipBitsF(data, offset, width);
    var b := offset / 8;
    var s := offset % 8;
    var m := Mask(s, width);
    Pow2Eight();
    if j / 8 == b {
      MaskBit(s, width, j % 8);
    } else if j / 8 == b + 1 && s + width > 8 {
      ShrBit(m, 8, j % 8);
      ShrDivides(m, 8);
      MaskBit(s, width, j % 8 + 8);
    }
  }

  /** Flipping the same bits twice gives the buffer back. */
  lemma FlipBitsInvolution(data: seq<byte>, offset: nat, width: nat)
    requires FlipWidth(width) && offset + width <= 8 * |data|
    ensures FlipBitsF(FlipBitsF(data, offset, width), offset, width) == data
  {
    var once := FlipBitsF(data, offset, width);
    var twice := FlipBitsF(once, offset, width);
    forall j | 0 <= j < 8 * |data|
      ensures BufferBit(twice, j) == BufferBit(data, j)
    {
      FlipBitsFlips(data, offset, width, j);
      FlipBitsFlips(once, offset, width, j);
    }
    BufferBitsDetermine(twice, data);
  }

  /** Flipping two bits from bit 7 of a two-byte buffer of zeros. */
  lemma FlipBitsAcrossBytes()
    ensures FlipBitsAsWrittenF([0, 0], 7, 2) == [0x80, 0]
    ensures FlipBitsF([0, 0], 7, 2) == [0x80, 0x01]
    ensures !BufferBit(FlipBitsAsWrittenF([0, 0], 7, 2), 8)
    ensures BufferBit(FlipBitsF([0, 0], 7, 2), 8)
  {
    assert Mask(7, 2) == 384 by {
      assert Pow2(2) == 4;
      assert Pow2(7) == 128;
    }
    ZeroXor(384);
    ZeroXor(1);
    assert Bit(1, 0);
  }

  /** Exclusive or of zero with `m` is `m`. */
  lemma {:induction false} ZeroXor(m: nat)
    ensures Xor(0, m) == m
    decreases m
  {
    if m != 0 {
      ZeroXor(m / 2);
    }
  }

  /** `FlipBits` as written, on the buffer in place. */
  method FlipBitsAsWritten(buffer: array<byte>, width: nat, offset: nat)
    requires FlipWidth(width) && offset + width <= 8 * buffer.Length
    modifies buffer
    ensures buffer[..] == FlipBitsAsWrittenF(old(buffer[..]), offset, width)
  {
    var b := offset / 8;
    buffer[b] := XorInto(buffer[b], Mask(offset % 8, width));
  }

  /** `FlipBits` with the carry into the next byte, on the buffer in place. */
  method FlipBits(buffer: array<byte>, width: nat, offset: nat)
    requires FlipWidth(width) && offset + width <= 8 * buffer.Length
    modifies buffer
    ensures buffer[..] == FlipBitsF(old(buffer[..]), offset, width)
  {
    var b := offset / 8;
    var m := Mask(offset % 8, width);
    buffer[b] := XorInto(buffer[b], m);
    if offset % 8 + width > 8 {
      buffer[b + 1] := XorInto(buffer[b + 1], m / 256);
    }
  }

  // ---------------------------------------------------------------------
  // FlipBytes
  // ---------------------------------------------------------------------

  /** The widths of the integers `FlipBytes` and `Arith` work on; any other width aborts. */
  predicate IntWidth(width: nat)
  {
    width == 1 || width == 2 || width == 4
  }

  /** `FlipBytes`: each of the `width` bytes from `offset` XORed with `0xff`. */
  function FlipBytesF(data: seq<byte>, offset: nat, width: nat): (r: seq<byte>)
    requires IntWidth(width) && offset + width <= |data|
    ensures |r| == |data|
    ensures forall i :: 0 <= i < |r| && !(offset <= i < offset + width) ==> r[i] == data[i]
  {
    seq(|data|, i requires 0 <= i < |data| => if offset <= i < offset + width then XorByte(data[i], 0xFF) else data[i])
  }

  /** Inside the window every byte is inverted: it becomes `255 - b`. */
  lemma FlipBytesInverts(data: seq<byte>, offset: nat, width: nat, i: nat)
    requires IntWidth(width) && offset + width <= |data| && offset <= i < offset + width
    ensures FlipBytesF(data, offset, width)[i] == 255 - data[i]
  {
    Pow2Eight();
    XorOnes(data[i], 8);
  }

  /** Inverting the same bytes twice gives the buffer back. */
  lemma FlipBytesInvolution(data: seq<byte>, offset: nat, width: nat)
    requires IntWidth(width) && offset + width <= |data|
    ensures FlipBytesF(FlipBytesF(data, offset, width), offset, width) == data
  {
    var once := FlipBytesF(data, offset, width);
    forall i | offset <= i < offset + width
      ensures FlipBytesF(once, offset, width)[i] == data[i]
    {
      FlipBytesInverts(data, offset, width, i);
      FlipBytesInverts(once, offset, width, i);
    }
  }

  /** `FlipBytes` on the buffer in place: one store of the `width`-byte integer XORed with all ones. */
  method FlipBytes(buffer: array<byte>, width: nat, offset: nat)
    requires IntWidth(width) && offset + width <= buffer.Length
    modifies buffer
    ensures buffer[..] == FlipBytesF(old(buffer[..]), offset, width)
  {
    forall i | offset <= i < offset + width {
      buffer[i] := XorByte(buffer[i], 0xFF);
    }
  }

  // ---------------------------------------------------------------------
  // Arith
  // ---------------------------------------------------------------------

  /** The range `Next(-35, 35)` draws the delta from. */
  predicate DeltaRange(delta: int)
  {
    -35 <= delta <= 35
  }

  /**
   * `Arith`: the `width`-byte integer at `offset` plus `delta`, wrapped to
   * `width` bytes and stored back; the other bytes are kept.
   */
  function ArithF(data: seq<byte>, offset: nat, width: nat, delta: int): (r: seq<byte>)
    requires IntWidth(width) && offset + width <= |data|
    ensures |r| == |data|
  {
    var value := LittleEndian(data[offset..offset + width]);
    data[..offset] + ToLittleEndian((value + delta) % Pow256(width), width) + data[offset + width..]
  }

  /** After `Arith` the window holds the old integer plus `delta` modulo `256^width`, and nothing else changes. */
  lemma ArithWindow(data: seq<byte>, offset: nat, width: nat, delta: int)
    requires IntWidth(width) && offset + width <= |data|
    ensures var r := ArithF(data, offset, width, delta);
      LittleEndian(r[offset..offset + width]) == (LittleEndian(data[offset..offset + width]) + delta) % Pow256(width) &&
      r[..offset] == data[..offset] && r[offset + width..] == data[offset + width..]
  {
    var r := ArithF(data, offset, width, delta);
    var sum := (LittleEndian(data[offset..offset + width]) + delta) % Pow256(width);
    var w := ToLittleEndian(sum, width);
    assert r[offset..offset + width] == w;
    assert r[..offset] == data[..offset];
    assert r[offset + width..] == data[offset + width..];
    LittleEndianRoundTrip(sum, width);
  }

  /** Adding `-delta` after `delta` gives the buffer back. */
  lemma ArithInverse(data: seq<byte>, offset: nat, width: nat, delta: int)
    requires IntWidth(width) && offset + width <= |data|
    ensures ArithF(ArithF(data, offset, width, delta), offset, width, -delta) == data
  {
    var window := data[offset..offset + width];
    var once := ArithF(data, offset, width, delta);
    ArithWindow(data, offset, width, delta);
    ModAddBack(LittleEndian(window), delta, Pow256(width));
    ToLittleEndianRoundTrip(window);
    ArithRestores(data, once, offset, width, -delta);
  }

  /** `Arith` on a buffer whose window sums back to `data`'s window, and whose other bytes are `data`'s, gives `data`. */
  lemma ArithRestores(data: seq<byte>, once: seq<byte>, offset: nat, width: nat, delta: int)
    requires IntWidth(width) && offset + width <= |data| && |once| == |data|
    requires once[..offset] == data[..offset] && once[offset + width..] == data[offset + width..]
    requires ToLittleEndian((LittleEndian(once[offset..offset + width]) + delta) % Pow256(width), width) == data[offset..offset + width]
    ensures ArithF(once, offset, width, delta) == data
  {
    assert data == data[..offset] + data[offset..offset + width] + data[offset + width..];
  }

  /** Subtracting what was added, modulo `p`, gives back a number below `p`. */
  lemma ModAddBack(v: int, delta: int, p: int)
    requires p >= 1 && 0 <= v < p
    ensures ((v + delta) % p - delta) % p == v
  {
    var u := (v + delta) % p;
    var q := (v + delta) / p;
    assert v + delta == p * q + u;
    assert u - delta == v - p * q;
    ModMultiple(v, -q, p);
  }

  /** Adding a multiple of `p` does not change a remainder modulo `p`. */
  lemma ModMultiple(v: int, q: int, p: int)
    requires p >= 1 && 0 <= v < p
    ensures (v + p * q) % p == v
  {
    var x := v + p * q;
    var a := x / p;
    var b := x % p;
    assert p * a + b == v + p * q;
    assert p * a - p * q == p * (a - q);
    if a - q > 0 {
      MulAtLeast(p, a - q);
    } else if a - q < 0 {
      assert p * q - p * a == p * (q - a);
      MulAtLeast(p, q - a);
    }
  }

  /** Stores `bytes` over the buffer from `offset` on, in one step. */
  method Store(buffer: array<byte>, offset: nat, bytes: seq<byte>)
    requires offset + |bytes| <= buffer.Length
    modifies buffer
    ensures buffer[..] == old(buffer[..offset]) + bytes + old(buffer[offset + |bytes|..])
  {
    forall i | 0 <= i < |bytes| {
      buffer[offset + i] := bytes[i];
    }
    assert buffer[..] == old(buffer[..offset]) + bytes + old(buffer[offset + |bytes|..]);
  }

  /**
   * `Arith` on the buffer in place: the `width`-byte integer at `offset` is
   * read, `delta` is added and the wrapped sum is stored back. For width 4
   * the source adds two `int32_t` in `int`, and an overflow there is
   * undefined; the model takes the wrap modulo 2^32.
   */
  method Arith(buffer: array<byte>, width: nat, offset: nat, delta: int)
    requires IntWidth(width) && offset + width <= buffer.Length && DeltaRange(delta)
    modifies buffer
    ensures buffer[..] == ArithF(old(buffer[..]), offset, width, delta)
  {
    var value := LittleEndian(buffer[offset..offset + width]);
    Store(buffer, offset, ToLittleEndian((value + delta) % Pow256(width), width));
  }

  // ---------------------------------------------------------------------
  // MutateBitsValue
  // ---------------------------------------------------------------------

  /** The mutations of a bits value. */
  datatype BitsStrategy = BitFlip1 | BitFlip2 | BitFlip4 | ByteFlip1 | ByteFlip2 | ByteFlip4 | ByteArith | WordArith | DWordArith

  /** The mutations offered for a value of `size` bytes, in the order they are listed. */
  function ValidStrategies(size: nat): (r: seq<BitsStrategy>)
    ensures |r| == if size >= 4 then 9 else if size >= 2 then 7 else 5
  {
    [BitFlip1, BitFlip2, BitFlip4, ByteFlip1, ByteArith]
    + (if size >= 2 then [ByteFlip2, WordArith] else [])
    + (if size >= 4 then [ByteFlip4, DWordArith] else [])
  }

  /** The number of bytes a strategy works on: one for a bit flip, `width` for the others. */
  function Footprint(s: BitsStrategy): nat
  {
    match s
    case BitFlip1 => 1
    case BitFlip2 => 1
    case BitFlip4 => 1
    case ByteFlip1 => 1
    case ByteFlip2 => 2
    case ByteFlip4 => 4
    case ByteArith => 1
    case WordArith => 2
    case DWordArith => 4
  }

  /** For a non-empty value, a strategy is offered exactly when the value has the bytes it works on. */
  lemma ValidStrategiesFit(size: nat, s: BitsStrategy)
    requires size >= 1
    ensures s in ValidStrategies(size) <==> Footprint(s) <= size
  {
  }

  /** The width of a strategy: in bits for the bit flips, in bytes for the others. */
  function Width(s: BitsStrategy): nat
  {
    match s
    case BitFlip1 => 1
    case BitFlip2 => 2
    case BitFlip4 => 4
    case ByteFlip1 => 1
    case ByteFlip2 => 2
    case ByteFlip4 => 4
    case ByteArith => 1
    case WordArith => 2
    case DWordArith => 4
  }

  /** The strategy flips bits. */
  predicate IsBitFlip(s: BitsStrategy)
  {
    s == BitFlip1 || s == BitFlip2 || s == BitFlip4
  }

  /** The strategy inverts bytes. */
  predicate IsByteFlip(s: BitsStrategy)
  {
    s == ByteFlip1 || s == ByteFlip2 || s == ByteFlip4
  }

  /**
   * The offset is in the range the strategy draws it from: `Next(0, size * 8 - width)`
   * for a bit flip, `Next(0, size - width)` for the others.
   */
  predicate OffsetFits(s: BitsStrategy, size: nat, offset: nat)
  {
    if IsBitFlip(s) then offset + Width(s) <= 8 * size else offset + Width(s) <= size
  }

  /**
   * The upper end of the offset draw, as the `size_t` expression
   * `size * CHAR_BIT - width` (bit flips) or `size - width` (the others)
   * evaluates: it wraps around when the value has fewer bits or bytes
   * than the strategy's width.
   */
  function DrawBound(s: BitsStrategy, size: nat): (r: nat)
    ensures r < 0x1_0000_0000_0000_0000
    ensures (if IsBitFlip(s) then 8 * size >= Width(s) else size >= Width(s)) ==>
      r <= (if IsBitFlip(s) then 8 * size - Width(s) else size - Width(s))
  {
    (if IsBitFlip(s) then 8 * size - Width(s) else size - Width(s)) % 0x1_0000_0000_0000_0000
  }

  /** The offset is one `Next(0, DrawBound(s, size))` can draw. */
  predicate OffsetDrawn(s: BitsStrategy, size: nat, offset: nat)
  {
    offset <= DrawBound(s, size)
  }

  /**
   * For an offered strategy, a drawn offset lies inside the value exactly
   * when the value has a byte. A zero-byte value (an `i1`, which the
   * extractor sizes at 0 bytes) is still offered all five narrow strategies,
   * but each draws from a wrapped-around range and every offset it draws
   * writes outside the buffer.
   */
  lemma DrawnFitsExactlyWhenNonEmpty(size: nat, s: BitsStrategy, offset: nat)
    requires s in ValidStrategies(size) && OffsetDrawn(s, size, offset)
    ensures OffsetFits(s, size, offset) <==> size >= 1
  {
    if size >= 1 {
      ValidStrategiesFit(size, s);
    }
  }

  /** The zero-byte value is offered strategies, but none has an offset inside it. */
  lemma EmptyValueOffersUnfittable(s: BitsStrategy, offset: nat)
    ensures |ValidStrategies(0)| == 5
    ensures s in ValidStrategies(0) ==> OffsetDrawn(s, 0, DrawBound(s, 0)) && !OffsetFits(s, 0, offset)
    ensures DrawBound(BitFlip1, 0) == 0xFFFF_FFFF_FFFF_FFFF && DrawBound(ByteFlip1, 0) == 0xFFFF_FFFF_FFFF_FFFF
  {
  }

  /** `MutateBitsValue`: the copy of the data after the chosen mutation, with `FlipBits` as written. */
  function MutateBitsF(data: seq<byte>, s: BitsStrategy, offset: nat, delta: int): (r: seq<byte>)
    requires OffsetFits(s, |data|, offset)
    ensures |r| == |data|
  {
    if IsBitFlip(s) then FlipBitsAsWrittenF(data, offset, Width(s))
    else if IsByteFlip(s) then FlipBytesF(data, offset, Width(s))
    else ArithF(data, offset, Width(s), delta)
  }

  /** Every offered strategy has an offset to draw from. */
  lemma OfferedHaveOffsets(size: nat, s: BitsStrategy)
    requires size >= 1 && s in ValidStrategies(size)
    ensures OffsetFits(s, size, 0)
  {
  }

  /**
   * The bytes a mutation may change: for a bit flip, byte `offset / 8`;
   * otherwise the `width` bytes from `offset`. Every other byte is kept.
   */
  lemma MutateBitsLocal(data: seq<byte>, s: BitsStrategy, offset: nat, delta: int, i: nat)
    requires OffsetFits(s, |data|, offset) && i < |data|
    requires if IsBitFlip(s) then i != offset / 8 else !(offset <= i < offset + Width(s))
    ensures MutateBitsF(data, s, offset, delta)[i] == data[i]
  {
    if !IsBitFlip(s) && !IsByteFlip(s) {
      ArithWindow(data, offset, Width(s), delta);
      if i < offset {
        assert data[..offset][i] == data[i];
      } else {
        assert data[offset + Width(s)..][i - offset - Width(s)] == data[i];
      }
    }
  }

  /**
   * `MutateBitsValue` on the bytes of a value: the strategy is the one at
   * `choice` in the offered list, the bytes are copied into a new buffer,
   * the mutation is applied to the copy, and the copy is the new value's data.
   * On a zero-byte value every drawn offset writes outside the buffer, which
   * is undefined; the model stops there, with `defined` false and the data
   * as it was.
   */
  method MutateBitsValue(data: seq<byte>, choice: nat, offset: nat, delta: int) returns (mutated: seq<byte>, defined: bool)
    requires choice < |ValidStrategies(|data|)|
    requires OffsetDrawn(ValidStrategies(|data|)[choice], |data|, offset) && DeltaRange(delta)
    ensures defined <==> |data| >= 1
    ensures defined ==> OffsetFits(ValidStrategies(|data|)[choice], |data|, offset)
    ensures defined ==> mutated == MutateBitsF(data, ValidStrategies(|data|)[choice], offset, delta)
    ensures !defined ==> mutated == data
  {
    var valid := ValidStrategies(|data|);
    var strategy := valid[choice];
    DrawnFitsExactlyWhenNonEmpty(|data|, strategy, offset);
    if |data| == 0 {
      return data, false;
    }
    var buffer := new byte[|data|](i requires 0 <= i < |data| => data[i]);
    assert buffer[..] == data;
    match strategy {
      case BitFlip1 => FlipBitsAsWritten(buffer, 1, offset);
      case BitFlip2 => FlipBitsAsWritten(buffer, 2, offset);
      case BitFlip4 => FlipBitsAsWritten(buffer, 4, offset);
      case ByteFlip1 => FlipBytes(buffer, 1, offset);
      case ByteFlip2 => FlipBytes(buffer, 2, offset);
      case ByteFlip4 => FlipBytes(buffer, 4, offset);
      case ByteArith => Arith(buffer, 1, offset, delta);
      case WordArith => Arith(buffer, 2, offset, delta);
      case DWordArith => Arith(buffer, 4, offset, delta);
    }
    mutated := buffer[..];
    defined := true;
  }
}
