/**
 * The runtime library linked into instrumented targets
 * (src/Instrumentor/InstrumentorLib/caflib.h): reading integers and bytes
 * from standard input, and the global list of objects created so far.
 *
 * Standard input is the sequence of bytes it holds and a read position;
 * `getchar` gives `EOF` (-1) once it is exhausted and `scanf("%c")` then
 * stores nothing.
 */
module CafLib {
  import opened MachineInts

  /** Standard input: its bytes and how many of them were read. */
  class Stdin {
    const input: seq<byte>
    var pos: nat

    constructor (input: seq<byte>)
      ensures this.input == input && pos == 0 && Valid()
    {
      this.input := input;
      pos := 0;
    }

    /** The read position never passes the end. */
    ghost predicate Valid()
      reads this
    {
      pos <= |input|
    }

    /** `getchar`: the next byte, or -1 at the end of the input. */
    method GetChar() returns (c: int)
      requires Valid()
      modifies this
      ensures Valid()
      ensures old(pos) < |input| ==> c == input[old(pos)] && pos == old(pos) + 1
      ensures old(pos) >= |input| ==> c == -1 && pos == old(pos)
    {
      if pos < |input| {
        c := input[pos];
        pos := pos + 1;
      } else {
        c := -1;
      }
    }

    /** `scanf("%c", p)`: the next byte, when there is one, to store at `p`. */
    method ScanChar() returns (stored: bool, c: byte)
      requires Valid()
      modifies this
      ensures Valid()
      ensures stored <==> old(pos) < |input|
      ensures stored ==> c == input[old(pos)] && pos == old(pos) + 1
      ensures !stored ==> pos == old(pos)
    {
      if pos < |input| {
        c := input[pos];
        pos := pos + 1;
        stored := true;
      } else {
        c := 0;
        stored := false;
      }
    }
  }

  /** The next four input bytes, with 255 for each byte past the end (`EOF` stored in an `unsigned char`). */
  function NextFour(input: seq<byte>, pos: nat): (r: seq<byte>)
    ensures |r| == 4
    ensures forall i :: 0 <= i < 4 && pos + i < |input| ==> r[i] == input[pos + i]
    ensures forall i :: 0 <= i < 4 && pos + i >= |input| ==> r[i] == 255
  {
    seq(4, i requires 0 <= i < 4 => if pos + i < |input| then input[pos + i] else 255)
  }

  /**
   * `inputIntTo`: four bytes read with `getchar` and summed as
   * `b0 + b1 * 2^8 + b2 * 2^16 + b3 * 2^24` into an `int`. For `b3 >= 128`
   * the product `cur * (1 << 24)` overflows `int`, which C leaves
   * undefined; the model takes the two's-complement wrap, a negative number.
   */
  method InputIntTo(stdin: Stdin) returns (dest: i32)
    requires stdin.Valid()
    modifies stdin
    ensures stdin.Valid()
    ensures dest == ToI32(LittleEndian(NextFour(stdin.input, old(stdin.pos))))
    ensures stdin.pos == if old(stdin.pos) + 4 <= |stdin.input| then old(stdin.pos) + 4 else |stdin.input|
  {
    ghost var start := stdin.pos;
    ghost var expected := NextFour(stdin.input, start);
    ghost var read: seq<byte> := [];
    dest := 0;
    for i := 0 to 4
      invariant stdin.Valid() && read == expected[..i]
      invariant dest == ToI32(LittleEndian(read))
      invariant stdin.pos == if start + i <= |stdin.input| then start + i else |stdin.input|
    {
      var c := stdin.GetChar();
      var cur := ToU8(c);
      assert cur == expected[i];
      assert ToI32(dest + cur * Pow256(i)) == ToI32(LittleEndian(read + [cur])) by {
        LittleEndianAppend(read, cur);
        ToI32Add(LittleEndian(read), dest, cur * Pow256(i));
      }
      dest := ToI32(dest + cur * Pow256(i));
      read := read + [cur];
    }
    assert read == expected;
  }

  /**
   * `inputBytesTo`: up to `size` bytes read with `scanf("%c")` into
   * `dest[0..size)`; once the input is exhausted the remaining bytes keep
   * what they held.
   */
  method InputBytesTo(stdin: Stdin, dest: array<byte>, size: int)
    requires stdin.Valid() && size <= dest.Length
    modifies stdin, dest
    ensures stdin.Valid()
    ensures var n := if size <= 0 || old(stdin.pos) >= |stdin.input| then 0
                     else if old(stdin.pos) + size <= |stdin.input| then size
                     else |stdin.input| - old(stdin.pos);
            stdin.pos == old(stdin.pos) + n &&
            (forall j :: 0 <= j < n ==> dest[j] == stdin.input[old(stdin.pos) + j]) &&
            (forall j :: n <= j < dest.Length ==> dest[j] == old(dest[j]))
  {
    ghost var start := stdin.pos;
    ghost var n := 0;
    for i := 0 to if size < 0 then 0 else size
      invariant n == (if start >= |stdin.input| then 0 else if start + i <= |stdin.input| then i else |stdin.input| - start)
      invariant stdin.Valid() && stdin.pos == start + n
      invariant forall j :: 0 <= j < n ==> dest[j] == stdin.input[start + j]
      invariant forall j :: n <= j < dest.Length ==> dest[j] == old(dest[j])
    {
      var stored, c := stdin.ScanChar();
      if stored {
        dest[i] := c;
        n := n + 1;
      }
    }
  }

  /** The global `__caf_object_list`: the objects created by the target so far. */
  class ObjectList {
    var list: seq<i64>

    constructor ()
      ensures list == []
    {
      list := [];
    }

    /** The list stays within what a `std::vector` can index. */
    ghost predicate Valid()
      reads this
    {
      |list| < 0x8000_0000_0000_0000
    }

    /** `saveToObjectList`: the object is appended, and nothing else changes. */
    method SaveToObjectList(objPtr: i64)
      requires Valid() && |list| + 1 < 0x8000_0000_0000_0000
      modifies this
      ensures Valid() && list == old(list) + [objPtr]
    {
      list := list + [objPtr];
    }

    /**
     * `getFromObjectList`: the object at `objIdx`, or 0 when the index is
     * out of range. The `int` index is compared as an unsigned size, so a
     * negative index is out of range too.
     */
    function GetFromObjectList(objIdx: i32): (r: i64)
      requires Valid()
      reads this
      ensures 0 <= objIdx < |list| ==> r == list[objIdx]
      ensures !(0 <= objIdx < |list|) ==> r == 0
    {
      var index := if objIdx < 0 then objIdx + 0x1_0000_0000_0000_0000 else objIdx;
      if index >= |list| then 0 else list[index]
    }
  }
}
