/**
 * The list shapes of the sequence mutations, shared by the test-case mutator
 * (src/Fuzzer/TestCaseMutator.cpp) and its header-only predecessor
 * (caf/CAFMutator.hpp): a splice, an insertion and a removal, on lists of
 * calls of either kind.
 */
module CallSequences {
  /** `Splice`: the first `k` calls of `previous`, then the calls of `source` from `k` on. */
  function SpliceF<T>(previous: seq<T>, source: seq<T>, k: nat): (r: seq<T>)
    requires k <= |previous| && k <= |source|
    ensures |r| == |source|
    ensures forall i :: 0 <= i < |r| ==> r[i] == if i < k then previous[i] else source[i]
  {
    previous[..k] + source[k..]
  }

  /** `InsertCall`: `call` placed at `index`, every other call kept in order. */
  function InsertCallF<T>(previous: seq<T>, index: nat, call: T): (r: seq<T>)
    requires index <= |previous|
    ensures |r| == |previous| + 1 && r[index] == call
    ensures forall i :: 0 <= i < index ==> r[i] == previous[i]
    ensures forall i :: index < i < |r| ==> r[i] == previous[i - 1]
  {
    previous[..index] + [call] + previous[index..]
  }

  /** `RemoveCall`: the call at `drop` left out, every other call kept in order. */
  function RemoveCallF<T>(previous: seq<T>, drop: nat): (r: seq<T>)
    requires drop < |previous|
    ensures |r| == |previous| - 1
    ensures forall i :: 0 <= i < drop ==> r[i] == previous[i]
    ensures forall i :: drop <= i < |r| ==> r[i] == previous[i + 1]
  {
    previous[..drop] + previous[drop + 1..]
  }

  /** Removing an inserted call gives the test case back. */
  lemma RemoveAfterInsert<T>(previous: seq<T>, index: nat, call: T)
    requires index <= |previous|
    ensures RemoveCallF(InsertCallF(previous, index, call), index) == previous
  {
    var r := RemoveCallF(InsertCallF(previous, index, call), index);
    assert forall i :: 0 <= i < |r| ==> r[i] == previous[i];
  }

  /** Putting a removed call back where it was gives the test case back. */
  lemma InsertAfterRemove<T>(previous: seq<T>, drop: nat)
    requires drop < |previous|
    ensures InsertCallF(RemoveCallF(previous, drop), drop, previous[drop]) == previous
  {
    var r := InsertCallF(RemoveCallF(previous, drop), drop, previous[drop]);
    assert forall i :: 0 <= i < |r| ==> r[i] == previous[i];
  }

  /** Splicing at 0 gives the source; splicing two equally long test cases at their length gives `previous`. */
  lemma SpliceEnds<T>(previous: seq<T>, source: seq<T>)
    ensures SpliceF(previous, source, 0) == source
    ensures |previous| == |source| ==> SpliceF(previous, source, |previous|) == previous
  {
    if |previous| == |source| {
      var r := SpliceF(previous, source, |previous|);
      assert forall i :: 0 <= i < |r| ==> r[i] == previous[i];
    }
    var r0 := SpliceF(previous, source, 0);
    assert forall i :: 0 <= i < |r0| ==> r0[i] == source[i];
  }
}
