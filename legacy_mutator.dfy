/**
 * The sequence mutations of the header-only fuzzer (`TestCaseMutator` in
 * caf/CAFMutator.hpp): splice, insertion of a call and removal of a call.
 * Each creates a new test case in the corpus and fills it call by call; the
 * methods return the index of the test case they produce.
 *
 * The random draws are parameters whose ranges the `requires` clauses
 * state. The call `insertCall` inserts comes from `generateCall`, which is a
 * parameter here too.
 */
module LegacyMutation {
  import opened MachineInts
  import opened LegacyCorpus
  import opened CallSequences

  /** The corpus with `tc` appended and the same pools. */
  ghost predicate Appended(corpus: Corpus, before: seq<TestCase>, pools: map<u64, ObjectPool>, tc: TestCase)
    reads corpus
  {
    corpus.testCases == before + [tc] && corpus.pools == pools
  }

  /** The copying loops: `calls[from..to]` appended to the test case at `target`, one call at a time. */
  method CopyCalls(corpus: Corpus, target: nat, calls: TestCase, from: nat, to: nat)
    requires target < |corpus.testCases| && from <= to <= |calls|
    modifies corpus
    ensures corpus.testCases == old(corpus.testCases)[target := old(corpus.testCases[target]) + calls[from..to]]
    ensures corpus.pools == old(corpus.pools)
  {
    ghost var before := corpus.testCases;
    ghost var start := corpus.testCases[target];
    assert start + calls[from..from] == start;
    assert before[target := start] == before;
    var i := from;
    while i < to
      invariant from <= i <= to
      invariant corpus.testCases == before[target := start + calls[from..i]]
      invariant corpus.pools == old(corpus.pools)
    {
      corpus.AddFunctionCall(target, calls[i]);
      assert (start + calls[from..i]) + [calls[i]] == start + calls[from..i + 1];
      i := i + 1;
    }
  }

  /** Appending copied calls to the last test case of the corpus. */
  lemma AppendToLast(before: seq<TestCase>, done: TestCase, more: TestCase)
    ensures (before + [done])[|before| := (before + [done])[|before|] + more] == before + [done + more]
  {
  }

  /**
   * `splice`: the source test case is drawn by `random_index`, from `[0, n]`
   * for a corpus of `n` test cases. The draw `n` names no test case, and
   * reading its length reads past the end of the corpus, which is undefined;
   * the model stops there (`defined` false) with the corpus unchanged.
   * Otherwise the result is the first `spliceIndex` calls of the test case at
   * `previous`, then the calls of the source from `spliceIndex` on, with
   * `spliceIndex` drawn from `[0, min(|previous|, |source|)]`.
   */
  method Splice(corpus: Corpus, previous: nat, source: nat, spliceIndex: nat) returns (mutated: nat, defined: bool)
    requires previous < |corpus.testCases| && RandomIndexDraws(|corpus.testCases|, source)
    requires source < |corpus.testCases| ==>
      RandomDraws(0, if |corpus.testCases[previous]| < |corpus.testCases[source]| then |corpus.testCases[previous]| else |corpus.testCases[source]|, spliceIndex)
    modifies corpus
    ensures defined <==> source < |old(corpus.testCases)|
    ensures !defined ==> corpus.testCases == old(corpus.testCases) && corpus.pools == old(corpus.pools)
    ensures defined ==> mutated == |old(corpus.testCases)|
    ensures defined ==> Appended(corpus, old(corpus.testCases), old(corpus.pools),
      SpliceF(old(corpus.testCases[previous]), old(corpus.testCases[source]), spliceIndex))
  {
    if source == |corpus.testCases| {
      return 0, false;
    }
    defined := true;
    ghost var before := corpus.testCases;
    var prev := corpus.testCases[previous];
    var src := corpus.testCases[source];
    mutated := corpus.CreateTestCase();
    CopyCalls(corpus, mutated, prev, 0, spliceIndex);
    AppendToLast(before, [], prev[0..spliceIndex]);
    CopyCalls(corpus, mutated, src, spliceIndex, |src|);
    AppendToLast(before, [] + prev[0..spliceIndex], src[spliceIndex..|src|]);
    assert [] + prev[0..spliceIndex] + src[spliceIndex..|src|] == SpliceF(prev, src, spliceIndex);
  }

  /**
   * `insertCall`: `call` placed at `insertIndex`, drawn by `random_index`
   * from `[0, |previous|]`, so the call can also go after the last one.
   */
  method InsertCall(corpus: Corpus, previous: nat, insertIndex: nat, call: FunctionCall) returns (mutated: nat)
    requires previous < |corpus.testCases| && RandomIndexDraws(|corpus.testCases[previous]|, insertIndex)
    modifies corpus
    ensures mutated == |old(corpus.testCases)|
    ensures Appended(corpus, old(corpus.testCases), old(corpus.pools),
      InsertCallF(old(corpus.testCases[previous]), insertIndex, call))
  {
    ghost var before := corpus.testCases;
    var prev := corpus.testCases[previous];
    mutated := corpus.CreateTestCase();
    CopyCalls(corpus, mutated, prev, 0, insertIndex);
    AppendToLast(before, [], prev[0..insertIndex]);
    corpus.AddFunctionCall(mutated, call);
    AppendToLast(before, [] + prev[0..insertIndex], [call]);
    CopyCalls(corpus, mutated, prev, insertIndex, |prev|);
    AppendToLast(before, [] + prev[0..insertIndex] + [call], prev[insertIndex..|prev|]);
    assert [] + prev[0..insertIndex] + [call] + prev[insertIndex..|prev|] == InsertCallF(prev, insertIndex, call);
  }

  /** `previousSequenceLen - 1` in `size_t`: the length less one, wrapping to 2^64 - 1 for an empty test case. */
  function LastIndex(len: nat): (r: u64)
    requires len <= 0x1_0000_0000_0000_0000
    ensures len == 0 ==> r == 0xFFFF_FFFF_FFFF_FFFF
    ensures len > 0 ==> r + 1 == len
  {
    (len - 1) % 0x1_0000_0000_0000_0000
  }

  /**
   * `removeCall`: a test case of one call is returned as it is, and the
   * empty test case created first stays in the corpus. Otherwise the call at
   * `drop`, drawn from `[0, LastIndex(|previous|)]`, is left out. For an
   * empty `previous` the bound wraps: a draw of 0 copies nothing and yields
   * the empty test case, and any other draw reads past the end of
   * `previous`, which is undefined; the model stops there (`defined` false)
   * with the empty created test case in the corpus.
   */
  method RemoveCall(corpus: Corpus, previous: nat, drop: nat) returns (mutated: nat, defined: bool)
    requires previous < |corpus.testCases| && |corpus.testCases[previous]| <= 0x1_0000_0000_0000_0000
    requires RandomDraws(0, LastIndex(|corpus.testCases[previous]|), drop)
    modifies corpus
    ensures defined <==> |old(corpus.testCases[previous])| != 0 || drop == 0
    ensures |old(corpus.testCases[previous])| == 1 ==>
      mutated == previous && Appended(corpus, old(corpus.testCases), old(corpus.pools), [])
    ensures |old(corpus.testCases[previous])| == 0 ==>
      Appended(corpus, old(corpus.testCases), old(corpus.pools), []) && (defined ==> mutated == |old(corpus.testCases)|)
    ensures |old(corpus.testCases[previous])| > 1 ==>
      mutated == |old(corpus.testCases)| &&
      Appended(corpus, old(corpus.testCases), old(corpus.pools), RemoveCallF(old(corpus.testCases[previous]), drop))
  {
    ghost var before := corpus.testCases;
    var prev := corpus.testCases[previous];
    mutated := corpus.CreateTestCase();
    defined := true;
    if |prev| == 1 {
      return previous, true;
    }
    if |prev| == 0 {
      if drop != 0 {
        defined := false;
      }
      return;
    }
    CopyCalls(corpus, mutated, prev, 0, drop);
    AppendToLast(before, [], prev[0..drop]);
    CopyCalls(corpus, mutated, prev, drop + 1, |prev|);
    AppendToLast(before, [] + prev[0..drop], prev[drop + 1..|prev|]);
    assert [] + prev[0..drop] + prev[drop + 1..|prev|] == RemoveCallF(prev, drop);
  }
}
