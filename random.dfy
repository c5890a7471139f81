/**
 * The random source the generators draw from (include/Infrastructure/Random.h).
 *
 * The engine is modelled by the stream of raw numbers it produces, given at
 * construction; every sequence of outcomes the engine can produce is the
 * outcome of some stream. A draw in `[min, max]` maps the next raw number
 * into that range. `WithProbability(p)` takes a floating-point probability
 * in the source; here it is a draw of either outcome.
 */
module Randomness {
  import opened MachineInts

  class Random {
    const stream: nat -> nat
    var cursor: nat

    /** A source that produces `stream(0)`, `stream(1)`, ... */
    constructor (stream: nat -> nat)
      ensures this.stream == stream && cursor == 0
    {
      this.stream := stream;
      cursor := 0;
    }

    /** `Next(min, max)`: a number in `[min, max]`, both ends included. */
    method Next(min: int, max: int) returns (r: int)
      requires min <= max
      modifies this
      ensures min <= r <= max
      ensures cursor == old(cursor) + 1
    {
      r := min + stream(cursor) % (max - min + 1);
      cursor := cursor + 1;
    }

    /** `Index(c)` for a container of `size` elements: `Next(0, size - 1)`. */
    method Index(size: nat) returns (r: nat)
      requires size >= 1
      modifies this
      ensures r < size
      ensures cursor == old(cursor) + 1
    {
      var i := Next(0, size - 1);
      r := i;
    }

    /** `WithProbability`: either outcome. */
    method WithProbability() returns (b: bool)
      modifies this
      ensures cursor == old(cursor) + 1
    {
      var i := Next(0, 1);
      b := i == 0;
    }

    /** `NextBuffer`: `size` random bytes. */
    method NextBuffer(size: nat) returns (r: seq<byte>)
      modifies this
      ensures |r| == size
    {
      r := [];
      while |r| < size
        invariant |r| <= size
        decreases size - |r|
      {
        var b := Next(0, 255);
        r := r + [b];
      }
    }
  }
}
