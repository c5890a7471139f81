/**
 * The self-incrementing id allocator (include/Infrastructure/Identity.h).
 *
 * The source never initialises the counter; the model's constructor takes the
 * value it happens to start from. The counter is modelled as an unbounded
 * natural number, so `next` never wraps.
 */
module Identity {
  /** An allocator handing out `id`, `id + 1`, ... */
  class IncrementIdAllocator {
    var id: nat

    /** An allocator whose next id is `start`. */
    constructor (start: nat)
      ensures id == start
    {
      id := start;
    }

    /** `next`: the current id is returned and the counter moves past it. */
    method Next() returns (r: nat)
      modifies this
      ensures r == old(id) && id == old(id) + 1
      ensures r < id
    {
      r := id;
      id := id + 1;
    }

    /** `peek`: the id the next `next` returns, with nothing changed. */
    function Peek(): (r: nat)
      reads this
      ensures r == id
    {
      id
    }

    /** `reset`: the next id is 0 again. */
    method Reset()
      modifies this
      ensures id == 0
    {
      id := 0;
    }
  }
}
