/** Fixed-width machine integers as ranges of unbounded integers, with explicit wrap-around. */
module MachineInts {
  type byte = x: int | 0 <= x < 0x100
  type u32 = x: int | 0 <= x < 0x1_0000_0000
  type u64 = x: int | 0 <= x < 0x1_0000_0000_0000_0000
  type i32 = x: int | -0x8000_0000 <= x < 0x8000_0000
  type i64 = x: int | -0x8000_0000_0000_0000 <= x < 0x8000_0000_0000_0000

  /** 256 to the power `n`: the number of values of an `n`-byte integer. */
  function Pow256(n: nat): (r: int)
    ensures r >= 1
  {
    if n == 0 then 1 else 256 * Pow256(n - 1)
  }

  /** A 4-byte field has 2^32 values. */
  lemma Pow256Four()
    ensures Pow256(4) == 0x1_0000_0000
  {
    assert Pow256(4) == 256 * Pow256(3);
  }

  /** An 8-byte field has 2^64 values. */
  lemma Pow256Eight()
    ensures Pow256(8) == 0x1_0000_0000_0000_0000
  {
    Pow256Four();
    assert Pow256(8) == 256 * (256 * (256 * (256 * Pow256(4))));
  }

  /** Conversion to `uint8_t`: the value modulo 256. */
  function ToU8(x: int): (r: byte)
    ensures (x - r) % 0x100 == 0
  {
    x % 0x100
  }

  /** Conversion to `int8_t` (two's complement). */
  function ToI8(x: int): (r: int)
    ensures -0x80 <= r < 0x80
    ensures (x - r) % 0x100 == 0
  {
    var u := x % 0x100;
    if u >= 0x80 then u - 0x100 else u
  }

  /** Conversion to `int16_t` (two's complement). */
  function ToI16(x: int): (r: int)
    ensures -0x8000 <= r < 0x8000
    ensures (x - r) % 0x1_0000 == 0
  {
    var u := x % 0x1_0000;
    if u >= 0x8000 then u - 0x1_0000 else u
  }

  /** Conversion to `int32_t` (two's complement). */
  function ToI32(x: int): (r: i32)
    ensures (x - r) % 0x1_0000_0000 == 0
  {
    var u := x % 0x1_0000_0000;
    if u >= 0x8000_0000 then u - 0x1_0000_0000 else u
  }

  /** The unsigned value of bytes stored least significant first. */
  function LittleEndian(bs: seq<byte>): (r: int)
    ensures 0 <= r < Pow256(|bs|)
  {
    if bs == [] then 0 else bs[0] + 256 * LittleEndian(bs[1..])
  }

  /** A byte appended to a little-endian number is its most significant one. */
  lemma {:induction false} LittleEndianAppend(bs: seq<byte>, b: byte)
    ensures LittleEndian(bs + [b]) == LittleEndian(bs) + b * Pow256(|bs|)
  {
    if bs != [] {
      var t := bs[1..];
      assert (bs + [b])[1..] == t + [b];
      LittleEndianAppend(t, b);
      var lt, p := LittleEndian(t), Pow256(|t|);
      assert Pow256(|bs|) == 256 * p;
      var q := b * p;
      assert 256 * (lt + q) == 256 * lt + 256 * q;
      assert 256 * (b * p) == b * (256 * p);
    }
  }

  /** Numbers congruent modulo 2^32 have the same `int32_t` value. */
  lemma ToI32Congruent(x: int, y: int)
    requires (x - y) % 0x1_0000_0000 == 0
    ensures ToI32(x) == ToI32(y)
  {
    assert x % 0x1_0000_0000 == y % 0x1_0000_0000;
  }

  /** Adding the same amount to a number and to its `int32_t` value keeps them congruent. */
  lemma ToI32Add(x: int, d: int, k: int)
    requires d == ToI32(x)
    ensures ToI32(d + k) == ToI32(x + k)
  {
    var m := (x - d) / 0x1_0000_0000;
    assert x - d == m * 0x1_0000_0000;
    assert (d + k) - (x + k) == (-m) * 0x1_0000_0000;
    ToI32Congruent(d + k, x + k);
  }

  /** The `n` low-order bytes of `x`, least significant first. */
  function ToLittleEndian(x: int, n: nat): (r: seq<byte>)
    ensures |r| == n
    decreases n
  {
    if n == 0 then [] else [x % 256] + ToLittleEndian(x / 256, n - 1)
  }

  /** Writing a value that fits in `n` bytes and reading it back gives the value. */
  lemma {:induction false} LittleEndianRoundTrip(x: int, n: nat)
    requires 0 <= x < Pow256(n)
    ensures LittleEndian(ToLittleEndian(x, n)) == x
  {
    if n > 0 {
      LittleEndianRoundTrip(x / 256, n - 1);
      assert ToLittleEndian(x, n)[1..] == ToLittleEndian(x / 256, n - 1);
    }
  }

  /** Reading bytes and writing the value back gives the bytes. */
  lemma {:induction false} ToLittleEndianRoundTrip(bs: seq<byte>)
    ensures ToLittleEndian(LittleEndian(bs), |bs|) == bs
  {
    if bs != [] {
      ToLittleEndianRoundTrip(bs[1..]);
      var x := LittleEndian(bs);
      assert x % 256 == bs[0] && x / 256 == LittleEndian(bs[1..]);
    }
  }
}
