/**
 * The grouping of LLVM functions by signature
 * (src/LLVMPass/FunctionSignatureGrouper.cpp): a map from each signature
 * met so far to the functions registered with it, in registration order.
 */
module SignatureGrouping {
  import opened Results
  import opened LLVMPassSignature

  class FunctionSignatureGrouper {
    var signatures: map<Signature, seq<Function>>

    /** Every function is grouped under its own signature. */
    ghost predicate Valid()
      reads this
    {
      forall s, i :: s in signatures && 0 <= i < |signatures[s]| ==> SignatureOf(signatures[s][i].functionType) == s
    }

    constructor ()
      ensures signatures == map[] && Valid()
    {
      signatures := map[];
    }

    /** `clear`: every group is removed. */
    method Clear()
      modifies this
      ensures signatures == map[] && Valid()
    {
      signatures := map[];
    }

    /** `GetFunctions`: the group of the signature, or null when no function has it. */
    function GetFunctions(signature: Signature): (r: Option<seq<Function>>)
      reads this
      ensures r.None? <==> signature !in signatures
      ensures r.Some? ==> r.value == signatures[signature]
    {
      if signature in signatures then Some(signatures[signature]) else None
    }

    /** `GetOrAddSignature`: the group of the signature, created empty only when the signature is absent. */
    method GetOrAddSignature(signature: Signature) returns (group: seq<Function>)
      requires Valid()
      modifies this
      ensures Valid() && signature in signatures && group == signatures[signature]
      ensures old(signature in signatures) ==> signatures == old(signatures)
      ensures old(signature !in signatures) ==> signatures == old(signatures)[signature := []]
    {
      if signature !in signatures {
        signatures := signatures[signature := []];
      }
      group := signatures[signature];
    }

    /** `Register`: the function is appended to the group of its signature. */
    method Register(f: Function)
      requires Valid()
      modifies this
      ensures Valid()
      ensures var s := SignatureOf(f.functionType);
              signatures == old(signatures)[s := (if s in old(signatures) then old(signatures)[s] else []) + [f]]
    {
      var signature := FromFunction(f);
      var group := GetOrAddSignature(signature);
      signatures := signatures[signature := group + [f]];
    }
  }
}
