/**
 * Function signatures of the LLVM pass (src/LLVMPass/LLVMFunctionSignature.cpp):
 * a return type and the parameter types, compared type by type.
 *
 * LLVM types are uniqued, so a type is its address; the model names each
 * type by an opaque number, and two types are the same exactly when their
 * numbers are.
 */
module LLVMPassSignature {
  /** An LLVM type, by identity. */
  type TypeRef = nat

  /** An LLVM function type: its return type and parameter types. */
  datatype FunctionType = FunctionType(returnType: TypeRef, params: seq<TypeRef>)

  /** An LLVM function, by identity, with its function type. */
  datatype Function = Function(id: nat, functionType: FunctionType)

  /** A function signature: the return type and the parameter types, in order. */
  datatype Signature = Signature(retType: TypeRef, paramTypes: seq<TypeRef>)

  /** The signature a function type has. */
  function SignatureOf(t: FunctionType): Signature
  {
    Signature(t.returnType, t.params)
  }

  /** `operator==`: the return types are equal and the parameter lists are equal element by element. */
  predicate SameSignature(lhs: Signature, rhs: Signature)
  {
    lhs.retType == rhs.retType && |lhs.paramTypes| == |rhs.paramTypes| &&
    forall i :: 0 <= i < |lhs.paramTypes| ==> lhs.paramTypes[i] == rhs.paramTypes[i]
  }

  /** Signatures compare equal exactly when they are the same value. */
  lemma SameSignatureIsEquality(lhs: Signature, rhs: Signature)
    ensures SameSignature(lhs, rhs) <==> lhs == rhs
  {
    if SameSignature(lhs, rhs) {
      assert lhs.paramTypes == rhs.paramTypes;
    }
  }

  /** The comparison is reflexive and symmetric. */
  lemma SameSignatureEquivalence(a: Signature, b: Signature)
    ensures SameSignature(a, a)
    ensures SameSignature(a, b) ==> SameSignature(b, a)
  {
  }

  /** Two function types have equal signatures exactly when they are the same function type. */
  lemma SignatureOfInjective(s: FunctionType, t: FunctionType)
    ensures SameSignature(SignatureOf(s), SignatureOf(t)) <==> s == t
  {
    SameSignatureIsEquality(SignatureOf(s), SignatureOf(t));
  }

  /** `FromType`: the parameter types copied one by one, in order, with the return type. */
  method FromType(t: FunctionType) returns (s: Signature)
    ensures s == SignatureOf(t)
    ensures |s.paramTypes| == |t.params| && forall i :: 0 <= i < |t.params| ==> s.paramTypes[i] == t.params[i]
  {
    var paramTypes: seq<TypeRef> := [];
    for i := 0 to |t.params|
      invariant paramTypes == t.params[..i]
    {
      paramTypes := paramTypes + [t.params[i]];
    }
    assert t.params[..|t.params|] == t.params;
    s := Signature(t.returnType, paramTypes);
  }

  /** `FromFunction`: the signature of the function's type. */
  method FromFunction(f: Function) returns (s: Signature)
    ensures s == SignatureOf(f.functionType)
  {
    s := FromType(f.functionType);
  }

  /** `operator==`: the return types, then the counts, then the parameter types pairwise. */
  method Equal(lhs: Signature, rhs: Signature) returns (r: bool)
    ensures r == SameSignature(lhs, rhs)
    ensures r <==> lhs == rhs
  {
    SameSignatureIsEquality(lhs, rhs);
    if lhs.retType != rhs.retType {
      return false;
    }
    if |lhs.paramTypes| != |rhs.paramTypes| {
      return false;
    }
    var p := 0;
    while p != |lhs.paramTypes|
      invariant 0 <= p <= |lhs.paramTypes|
      invariant forall i :: 0 <= i < p ==> lhs.paramTypes[i] == rhs.paramTypes[i]
      decreases |lhs.paramTypes| - p
    {
      var l := lhs.paramTypes[p];
      var q := rhs.paramTypes[p];
      p := p + 1;
      if l != q {
        return false;
      }
    }
    return true;
  }

  /** `operator!=`: the negation of `operator==`. */
  method NotEqual(lhs: Signature, rhs: Signature) returns (r: bool)
    ensures r == !SameSignature(lhs, rhs)
    ensures r <==> lhs != rhs
  {
    var equal := Equal(lhs, rhs);
    r := !equal;
  }
}
