/**
 * Function signatures of the extractor (src/Extractor/LLVMFunctionSignature.cpp):
 * a return type and a view of the function type's parameter types,
 * compared type by type. LLVM types are named by opaque numbers, as in the
 * LLVM pass.
 */
module ExtractorSignature {
  /** An LLVM type, by identity. */
  type TypeRef = nat

  /** An LLVM function type: its return type and parameter types. */
  datatype FunctionType = FunctionType(returnType: TypeRef, params: seq<TypeRef>)

  /** A function signature: the return type and the parameter types, in order. */
  datatype Signature = Signature(retType: TypeRef, paramTypes: seq<TypeRef>)

  /** `operator==`: the same return type and the same parameter sequence. */
  predicate SameSignature(lhs: Signature, rhs: Signature)
  {
    lhs.retType == rhs.retType && |lhs.paramTypes| == |rhs.paramTypes| &&
    forall i :: 0 <= i < |lhs.paramTypes| ==> lhs.paramTypes[i] == rhs.paramTypes[i]
  }

  /** `FromType`: the function type's return type and its parameter list, unchanged. */
  function FromType(t: FunctionType): (s: Signature)
  {
    Signature(t.returnType, t.params)
  }

  /** Two function types give equal signatures exactly when they are the same function type. */
  lemma FromTypeInjective(s: FunctionType, t: FunctionType)
    ensures SameSignature(FromType(s), FromType(t)) <==> s == t
  {
    if SameSignature(FromType(s), FromType(t)) {
      assert s.params == t.params;
    }
  }

  /** Signatures with different parameter counts are never equal. */
  lemma DifferentCountsDiffer(lhs: Signature, rhs: Signature)
    requires |lhs.paramTypes| != |rhs.paramTypes|
    ensures !SameSignature(lhs, rhs)
  {
  }

  /** `operator==`: the return types, then the counts, then the parameter types pairwise. */
  method Equal(lhs: Signature, rhs: Signature) returns (r: bool)
    ensures r == SameSignature(lhs, rhs)
    ensures r <==> lhs == rhs
  {
    if lhs.retType != rhs.retType {
      return false;
    }
    if |lhs.paramTypes| != |rhs.paramTypes| {
      return false;
    }
    var p := 0;
    while p != |lhs.paramTypes|
      invariant 0 <= p <= |lhs.paramTypes|
      invariant forall i :: 0 <= i < p ==> lhs.paramTypes[i] == rhs.paramTypes[i]
      decreases |lhs.paramTypes| - p
    {
      var l := lhs.paramTypes[p];
      var q := rhs.paramTypes[p];
      p := p + 1;
      if l != q {
        return false;
      }
    }
    assert lhs.paramTypes == rhs.paramTypes;
    return true;
  }

  /** `operator!=`: the negation of `operator==`. */
  method NotEqual(lhs: Signature, rhs: Signature) returns (r: bool)
    ensures r == !SameSignature(lhs, rhs)
    ensures r <==> lhs != rhs
  {
    var equal := Equal(lhs, rhs);
    r := !equal;
  }
}
