/**
 * The fuzzing corpus (src/Fuzzer/Corpus.cpp, include/Fuzzer/Corpus.h): the
 * object pools of generated values, one per type id, the pool of
 * placeholders and the list of test cases.
 *
 * The corpus owns its pools outright, so each pool is modelled as the list
 * of values it holds, stored in the corpus under its type id; a pool
 * "pointer" is the type id it is stored under. A test-case reference is an
 * index into the list of test cases.
 */
module Corpora {
  import opened MachineInts
  import opened Results
  import opened NativeValues

  class Corpus {
    var pools: map<u64, seq<Value>>
    var placeholderPool: Option<seq<Value>>
    var testCases: seq<TestCase>

    /** A new corpus has no pools, no placeholder pool and no test cases. */
    constructor ()
      ensures pools == map[] && placeholderPool == None && testCases == []
    {
      pools := map[];
      placeholderPool := None;
      testCases := [];
    }

    /** `GetObjectPool`: the pool of the type, or null when there is none. */
    function GetObjectPool(typeId: u64): (r: Option<seq<Value>>)
      reads this
      ensures r.Some? <==> typeId in pools
      ensures r.Some? ==> r.value == pools[typeId]
    {
      if typeId in pools then Some(pools[typeId]) else None
    }

    /**
     * `GetOrCreateObjectPool`: an existing pool is returned as it is; an
     * absent one is created empty. Asking twice gives the same pool.
     */
    method GetOrCreateObjectPool(typeId: u64)
      modifies this
      ensures typeId in pools
      ensures old(typeId in pools) ==> pools == old(pools)
      ensures old(typeId !in pools) ==> pools == old(pools)[typeId := []]
      ensures placeholderPool == old(placeholderPool) && testCases == old(testCases)
    {
      var pool := GetObjectPool(typeId);
      if pool.Some? {
        return;
      }
      pools := pools[typeId := []];
    }

    /** `GetPlaceholderObjectPool`: the placeholder pool is created on first use and kept after. */
    method GetPlaceholderObjectPool()
      modifies this
      ensures placeholderPool.Some?
      ensures old(placeholderPool).Some? ==> placeholderPool == old(placeholderPool)
      ensures old(placeholderPool).None? ==> placeholderPool == Some([])
      ensures pools == old(pools) && testCases == old(testCases)
    {
      if placeholderPool.None? {
        placeholderPool := Some([]);
      }
    }

    /** `CreateValue` on a pool: the value is appended, and its position returned. */
    method CreateValue(typeId: u64, v: Value) returns (index: nat)
      requires typeId in pools
      modifies this
      ensures pools == old(pools)[typeId := old(pools[typeId]) + [v]]
      ensures index == |old(pools[typeId])| && pools[typeId][index] == v
      ensures placeholderPool == old(placeholderPool) && testCases == old(testCases)
    {
      index := |pools[typeId]|;
      pools := pools[typeId := pools[typeId] + [v]];
    }

    /** `CreateValue` on the placeholder pool, which must exist. */
    method CreatePlaceholderValue(v: Value) returns (index: nat)
      requires placeholderPool.Some?
      modifies this
      ensures placeholderPool == Some(old(placeholderPool.value) + [v])
      ensures index == |old(placeholderPool.value)|
      ensures pools == old(pools) && testCases == old(testCases)
    {
      index := |placeholderPool.value|;
      placeholderPool := Some(placeholderPool.value + [v]);
    }

    /** `CreateTestCase`: an empty test case is appended and its index, the new size minus one, returned. */
    method CreateTestCase() returns (index: nat)
      modifies this
      ensures testCases == old(testCases) + [[]]
      ensures index == |testCases| - 1
      ensures pools == old(pools) && placeholderPool == old(placeholderPool)
    {
      testCases := testCases + [[]];
      index := |testCases| - 1;
    }

    /** `AddFunctionCall` on the test case at `index`: the call is appended to it, and nothing else changes. */
    method AddFunctionCall(index: nat, call: FunctionCall)
      requires index < |testCases|
      modifies this
      ensures testCases == old(testCases)[index := old(testCases[index]) + [call]]
      ensures pools == old(pools) && placeholderPool == old(placeholderPool)
    {
      testCases := testCases[index := testCases[index] + [call]];
    }
  }
}
