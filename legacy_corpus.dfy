/**
 * The corpus and object pools of the header-only fuzzer (caf/CAFMutator.hpp),
 * with the random helpers its mutator draws from.
 *
 * A value is modelled by what it holds: the bytes of a bits value, the
 * pointee of a pointer, the length and elements of an array, the activator
 * id and arguments of a struct. A call is a function id and its argument
 * values, a test case a list of calls. A pool is an object that values are
 * created in; the corpus keeps one pool per type id and owns the test cases,
 * which a `CAFCorpusTestCaseRef` names by index.
 *
 * `rng::random(r, min, max)` draws from `[min, max]`, both ends included;
 * the model takes the drawn number as a parameter and states the range in a
 * predicate.
 */
module LegacyCorpus {
  import opened MachineInts
  import opened Results
  import CafMeta

  // ---------------------------------------------------------------------
  // Random draws
  // ---------------------------------------------------------------------

  /** `rng::random(r, min, max)` can give `k`. */
  predicate RandomDraws(min: int, max: int, k: int)
  {
    min <= k <= max
  }

  /**
   * `rng::random_index(r, c)` as written: `random(r, 0, c.size())`, so the
   * size itself, one past the last index, can be drawn.
   */
  predicate RandomIndexDraws(size: nat, k: int)
  {
    RandomDraws(0, size, k)
  }

  /**
   * `rng::select(r, c)` as written: the element at the drawn index, or
   * nothing when the draw is one past the end and `c[size]` is read.
   */
  function SelectAsWritten<T>(c: seq<T>, k: nat): (r: Option<T>)
    requires RandomIndexDraws(|c|, k)
    ensures r.Some? <==> k < |c|
  {
    if k < |c| then Some(c[k]) else None
  }

  /** Every container, the empty one too, lets `select` read one past its end. */
  lemma SelectReadsPastEnd<T>(c: seq<T>)
    ensures RandomIndexDraws(|c|, |c|) && SelectAsWritten(c, |c|) == None
  {
  }

  /** `random_index` as intended: `random(r, 0, c.size() - 1)`, an index of the container. */
  predicate IndexDraws(size: nat, k: int)
  {
    RandomDraws(0, size - 1, k)
  }

  /** The intended draws are the written ones less the size itself. */
  lemma IndexDrawsAreWrittenLessEnd(size: nat, k: int)
    ensures RandomIndexDraws(size, k) <==> IndexDraws(size, k) || k == size
  {
  }

  /** `select` with the intended draw: an element of the container. */
  function Select<T>(c: seq<T>, k: nat): (r: T)
    requires IndexDraws(|c|, k)
    ensures r in c
    ensures SelectAsWritten(c, k) == Some(r)
  {
    c[k]
  }

  // ---------------------------------------------------------------------
  // Values, calls and test cases
  // ---------------------------------------------------------------------

  /** A value, by the kind it is and what it holds. */
  datatype Value =
    | BitsValue(data: seq<byte>)
    | PointerValue(pointee: Value)
    | ArrayValue(length: nat, elements: seq<Value>)
    | StructValue(activatorId: u32, args: seq<Value>)

  /** A call: the id of the function called and the argument values. */
  datatype FunctionCall = FunctionCall(funcId: u64, args: seq<Value>)

  /** A test case: the calls in order. */
  type TestCase = seq<FunctionCall>

  // ---------------------------------------------------------------------
  // Pools and the corpus
  // ---------------------------------------------------------------------

  /** `CAFObjectPool`: the values created in it, oldest first. */
  class ObjectPool {
    var values: seq<Value>

    /** A new pool is empty. */
    constructor ()
      ensures values == []
    {
      values := [];
    }

    /** `empty`: the pool holds no value. */
    predicate IsEmpty()
      reads this
    {
      |values| == 0
    }

    /**
     * `create`: exactly one value is appended, and the position of the
     * created value, the last one, is returned.
     */
    method Create(v: Value) returns (index: nat)
      modifies this
      ensures values == old(values) + [v]
      ensures index == |old(values)| && index == |values| - 1 && values[index] == v
    {
      values := values + [v];
      index := |values| - 1;
    }
  }

  /** `CAFCorpus`: the metadata store, one pool per type id, and the test cases. */
  class Corpus {
    const store: CafMeta.CAFStore
    var pools: map<u64, ObjectPool>
    var testCases: seq<TestCase>

    /** A new corpus has the given store, no pools and no test cases. */
    constructor (store: CafMeta.CAFStore)
      ensures this.store == store && pools == map[] && testCases == []
    {
      this.store := store;
      pools := map[];
      testCases := [];
    }

    /** `getTestCase(index)` dereferenced: the test case at the index. */
    function TestCaseAt(index: nat): TestCase
      reads this
      requires index < |testCases|
    {
      testCases[index]
    }

    /**
     * `createTestCase`: an empty test case is appended and the returned
     * reference is the new size minus one, the index of that test case.
     */
    method CreateTestCase() returns (index: nat)
      modifies this
      ensures testCases == old(testCases) + [[]]
      ensures index == |testCases| - 1 && TestCaseAt(index) == []
      ensures pools == old(pools)
    {
      testCases := testCases + [[]];
      index := |testCases| - 1;
    }

    /** `addFunctionCall` on the test case at `index`: the call is appended to it and nothing else changes. */
    method AddFunctionCall(index: nat, call: FunctionCall)
      requires index < |testCases|
      modifies this
      ensures testCases == old(testCases)[index := old(testCases[index]) + [call]]
      ensures pools == old(pools)
    {
      testCases := testCases[index := testCases[index] + [call]];
    }

    /** `getObjectPool`: the pool of the type id, or null when there is none. */
    function GetObjectPool(typeId: u64): (r: Option<ObjectPool>)
      reads this
      ensures r.Some? <==> typeId in pools
      ensures r.Some? ==> r.value == pools[typeId]
    {
      if typeId in pools then Some(pools[typeId]) else None
    }

    /**
     * `getOrCreateObjectPool`: the pool already kept for the type id, or a
     * new empty one that is kept from then on, so asking again gives the
     * same pool.
     */
    method GetOrCreateObjectPool(typeId: u64) returns (pool: ObjectPool)
      modifies this
      ensures typeId in pools && pool == pools[typeId]
      ensures old(typeId in pools) ==> pools == old(pools) && pool == old(pools[typeId])
      ensures old(typeId !in pools) ==> fresh(pool) && pool.values == [] && pools == old(pools)[typeId := pool]
      ensures testCases == old(testCases)
    {
      var existing := GetObjectPool(typeId);
      if existing.Some? {
        return existing.value;
      }
      pool := new ObjectPool();
      pools := pools[typeId := pool];
    }
  }
}
