/**
 * The extractor's context (src/Extractor/ExtractorContext.cpp): the API
 * functions, constructors and callback candidates the LLVM pass found, and
 * the frozen context that `Freeze` builds from them, in which every API
 * function, constructor and type reachable from the API has an id and every
 * callback signature has at least one callback function.
 *
 * The LLVM module is a graph of types named by opaque references; a
 * reference stands for an `llvm::Type *`, and a function for an
 * `llvm::Function *` with its function type. The graph can be cyclic: a
 * named struct can point to itself.
 */
module ExtractorContexts {
  import opened Results
  import opened Strings
  import opened SetCounting
  import opened ExtractorSignature

  // ---------------------------------------------------------------------
  // The LLVM types
  // ---------------------------------------------------------------------

  /** The LLVM floating-point types. */
  datatype FloatKind = Half | Float | Double | X86FP80 | FP128 | PPCFP128

  /**
   * An LLVM type as the extractor sees it. `OtherTy` is every type the
   * extractor does not accept (labels, metadata, vectors, ...). A struct
   * with the empty name has no name.
   */
  datatype LlvmType =
    | VoidTy
    | IntegerTy(width: nat)
    | FloatingPointTy(kind: FloatKind)
    | PointerTy(pointee: TypeRef)
    | ArrayTy(count: nat, element: TypeRef)
    | StructTy(literal: bool, name: string, elements: seq<TypeRef>)
    | FunctionTy(functionType: FunctionType)
    | OtherTy

  /** The types of an LLVM module. */
  type TypeGraph = map<TypeRef, LlvmType>

  /** An LLVM function, by identity, with its function type. */
  datatype Function = Function(id: nat, functionType: FunctionType)

  /** The return type, then the parameter types of a function type. */
  function FunctionTypeRefs(ft: FunctionType): (r: seq<TypeRef>)
    ensures |r| == |ft.params| + 1 && r[0] == ft.returnType && r[1..] == ft.params
  {
    [ft.returnType] + ft.params
  }

  /** The types a type mentions. */
  function Refs(t: LlvmType): seq<TypeRef>
  {
    match t
    case PointerTy(pointee) => [pointee]
    case ArrayTy(_, element) => [element]
    case StructTy(_, _, elements) => elements
    case FunctionTy(ft) => FunctionTypeRefs(ft)
    case _ => []
  }

  /** Every type a type of the module mentions is a type of the module. */
  predicate GraphClosed(g: TypeGraph)
  {
    forall t, i {:trigger Refs(g[t])[i]} :: t in g && 0 <= i < |Refs(g[t])| ==> Refs(g[t])[i] in g
  }

  /** In a closed module, the types a type mentions are types of the module. */
  lemma RefsInGraph(g: TypeGraph, t: TypeRef)
    requires GraphClosed(g) && t in g
    ensures forall u :: u in Refs(g[t]) ==> u in g
  {
  }

  /** The function's return and parameter types are types of the module. */
  predicate FunctionInGraph(g: TypeGraph, f: Function)
  {
    forall i :: 0 <= i < |FunctionTypeRefs(f.functionType)| ==> FunctionTypeRefs(f.functionType)[i] in g
  }

  /** `IsValidType`: void, integer, floating-point, pointer, function, array or struct. */
  predicate IsValidType(t: LlvmType)
  {
    !t.OtherTy?
  }

  /** The module has a type the extractor rejects. */
  predicate HasUnsupported(g: TypeGraph)
  {
    exists t :: t in g && !IsValidType(g[t])
  }

  // ---------------------------------------------------------------------
  // Sizes and names of the bits types
  // ---------------------------------------------------------------------

  /** An integer or floating-point type: the types a bits type is made from. */
  predicate IsBitsType(t: LlvmType)
  {
    t.IntegerTy? || t.FloatingPointTy?
  }

  /** The number of bits of a floating-point format. */
  function FloatBits(k: FloatKind): nat
  {
    match k
    case Half => 16
    case Float => 32
    case Double => 64
    case X86FP80 => 80
    case FP128 => 128
    case PPCFP128 => 128
  }

  /**
   * `GetTypeSize` as written: an integer type's bit width divided by 8,
   * rounded down, so an integer narrower than a byte (`i1`, a C++ `bool`)
   * has size 0; a floating-point type its bytes.
   */
  function GetTypeSizeAsWritten(t: LlvmType): (r: nat)
    requires IsBitsType(t)
    ensures t.IntegerTy? ==> 8 * r <= t.width < 8 * r + 8
    ensures t.FloatingPointTy? ==> 8 * r == FloatBits(t.kind)
  {
    match t
    case IntegerTy(width) => width / 8
    case FloatingPointTy(kind) =>
      match kind
      case Half => 2
      case Float => 4
      case Double => 8
      case X86FP80 => 10
      case FP128 => 16
      case PPCFP128 => 16
  }

  /** The one-bit integer gets no byte at all. */
  lemma BoolGetsNoBytes()
    ensures GetTypeSizeAsWritten(IntegerTy(1)) == 0
    ensures 8 * GetTypeSizeAsWritten(IntegerTy(1)) < 1
  {
  }

  /**
   * `GetTypeSize` as intended: the fewest whole bytes that hold the type's
   * bits.
   */
  function GetTypeSize(t: LlvmType): (r: nat)
    requires IsBitsType(t)
    ensures t.IntegerTy? ==> t.width <= 8 * r < t.width + 8
    ensures t.FloatingPointTy? ==> 8 * r == FloatBits(t.kind)
  {
    match t
    case IntegerTy(width) => (width + 7) / 8
    case FloatingPointTy(_) => GetTypeSizeAsWritten(t)
  }

  /** The two agree on every type whose bits fill whole bytes. */
  lemma SizesAgreeOnWholeBytes(t: LlvmType)
    requires IsBitsType(t) && (t.IntegerTy? ==> t.width % 8 == 0)
    ensures GetTypeSize(t) == GetTypeSizeAsWritten(t)
  {
  }

  /**
   * `GetTypeName`: `i` and the bit width for an integer, `f16`, `f32`,
   * `f64`, `f80`, `f128` or `f128ppc` for a floating-point type, the name of
   * a struct, and the empty string for anything else.
   */
  function GetTypeName(t: LlvmType): (r: string)
    ensures t.IntegerTy? ==> |r| >= 2 && r[0] == 'i'
    ensures t.FloatingPointTy? ==> |r| >= 3 && r[0] == 'f'
    ensures t.StructTy? ==> r == t.name
    ensures !IsBitsType(t) && !t.StructTy? ==> r == ""
  {
    match t
    case IntegerTy(width) => "i" + NatToString(width)
    case FloatingPointTy(kind) =>
      (match kind
       case Half => "f16"
       case Float => "f32"
       case Double => "f64"
       case X86FP80 => "f80"
       case FP128 => "f128"
       case PPCFP128 => "f128ppc")
    case StructTy(_, name, _) => name
    case _ => ""
  }

  /** The name of an integer type gives its width back. */
  lemma IntegerNameGivesWidth(width: nat)
    ensures GetTypeName(IntegerTy(width))[1..] == NatToString(width)
    ensures ParseDigits(GetTypeName(IntegerTy(width))[1..]) == width
  {
    assert ("i" + NatToString(width))[1..] == NatToString(width);
    ParseNatToString(width);
  }

  /** Two bits types with the same name are the same type, so the name determines the size. */
  lemma BitsTypeNamesInjective(a: LlvmType, b: LlvmType)
    requires IsBitsType(a) && IsBitsType(b) && GetTypeName(a) == GetTypeName(b)
    ensures a == b && GetTypeSize(a) == GetTypeSize(b)
  {
    if a.IntegerTy? && b.IntegerTy? {
      IntegerNameGivesWidth(a.width);
      IntegerNameGivesWidth(b.width);
      NatToStringInjective(a.width, b.width);
    } else if a.FloatingPointTy? && b.FloatingPointTy? {
      var s := GetTypeName(a);
      assert s[1] == GetTypeName(b)[1] && |s| == |GetTypeName(b)|;
    }
  }

  // ---------------------------------------------------------------------
  // Id registries
  // ---------------------------------------------------------------------

  /**
   * An id registry of the frozen context. The source keeps the `(key, id)`
   * list in the order the keys were added, the maps from key to id and from
   * id to key, and an id allocator. The context is created with
   * `make_unique`, which value-initialises it, so every allocator starts at 0
   * and the `i`-th key added gets id `i`: the list of keys is then the pair
   * list, the id-to-key map and the allocator (its length) at once, and
   * `toId` is the key-to-id map.
   */
  datatype Registry<K(==)> = Registry(keys: seq<K>, toId: map<K, nat>)

  /** The registry is consistent: the `i`-th key has id `i`, and only the listed keys have ids. */
  ghost predicate RegistryValid<K>(r: Registry<K>)
  {
    (forall i :: 0 <= i < |r.keys| ==> r.keys[i] in r.toId && r.toId[r.keys[i]] == i)
    && (forall k :: k in r.toId ==> r.toId[k] < |r.keys| && r.keys[r.toId[k]] == k)
  }

  /** A new registry: no key. */
  function EmptyRegistry<K(==)>(): (r: Registry<K>)
    ensures RegistryValid(r) && r.keys == [] && r.toId == map[]
  {
    Registry([], map[])
  }

  /** The registry with `k` added under the next id. */
  function Extend<K(==)>(r: Registry<K>, k: K): Registry<K>
  {
    Registry(r.keys + [k], r.toId[k := |r.keys|])
  }

  /** Giving a key that has no id the next one keeps the registry consistent. */
  lemma ExtendValid<K>(r: Registry<K>, k: K)
    requires RegistryValid(r) && k !in r.toId
    ensures RegistryValid(Extend(r, k))
  {
    var r' := Extend(r, k);
    forall i | 0 <= i < |r'.keys| ensures r'.keys[i] in r'.toId && r'.toId[r'.keys[i]] == i {
      if i < |r.keys| {
        assert r'.keys[i] == r.keys[i] && r.keys[i] in r.toId;
      }
    }
    forall k' | k' in r'.toId ensures r'.toId[k'] < |r'.keys| && r'.keys[r'.toId[k']] == k' {
      if k' != k {
        assert r'.keys[r.toId[k']] == r.keys[r.toId[k']];
      }
    }
  }

  /**
   * `Add...`: a key already there leaves the registry as it is; a new key
   * gets the next id, the number of keys so far, and goes at the end of the
   * list.
   */
  function Register<K(==)>(r: Registry<K>, k: K): (r': Registry<K>)
    requires RegistryValid(r)
    ensures RegistryValid(r') && k in r'.toId
    ensures k in r.toId ==> r' == r
    ensures k !in r.toId ==> r'.keys == r.keys + [k] && r'.toId == r.toId[k := |r.keys|]
  {
    if k in r.toId then r
    else
      ExtendValid(r, k);
      Extend(r, k)
  }

  /** Adding the same key twice is adding it once. */
  lemma RegisterIdempotent<K>(r: Registry<K>, k: K)
    requires RegistryValid(r)
    ensures Register(Register(r, k), k) == Register(r, k)
  {
  }

  /** `find` on the key-to-id map: the id of a listed key is its position in the list. */
  function Find<K(==)>(r: Registry<K>, k: K): (res: Option<nat>)
    requires RegistryValid(r)
    ensures res.Some? <==> k in r.keys
    ensures res.Some? ==> res.value < |r.keys| && r.keys[res.value] == k
  {
    if k in r.toId then Some(r.toId[k])
    else
      assert forall i :: 0 <= i < |r.keys| ==> r.keys[i] != k;
      None
  }

  /** `find` on the id-to-key map: the key added `id`-th, whose id is `id`. */
  function FindById<K(==)>(r: Registry<K>, id: nat): (res: Option<K>)
    requires RegistryValid(r)
    ensures res.Some? <==> id < |r.keys|
    ensures res.Some? ==> res.value == r.keys[id] && Find(r, res.value) == Some(id)
  {
    if id < |r.keys| then Some(r.keys[id]) else None
  }

  /** The two maps are mutually inverse. */
  lemma FindInverse<K>(r: Registry<K>, k: K, id: nat)
    requires RegistryValid(r)
    ensures Find(r, k) == Some(id) <==> FindById(r, id) == Some(k)
  {
  }

  /** No key is listed twice. */
  lemma KeysDistinct<K>(r: Registry<K>, i: nat, j: nat)
    requires RegistryValid(r) && i < |r.keys| && j < |r.keys| && i != j
    ensures r.keys[i] != r.keys[j]
  {
    assert r.toId[r.keys[i]] == i && r.toId[r.keys[j]] == j;
  }

  /** A registry has as many keys with ids as it lists. */
  lemma {:induction false} RegistrySize<K>(r: Registry<K>)
    requires RegistryValid(r)
    ensures |r.toId.Keys| == |r.keys|
    decreases |r.keys|
  {
    if r.keys == [] {
      assert r.toId.Keys == {};
    } else {
      var n := |r.keys| - 1;
      var last := r.keys[n];
      var r' := Registry(r.keys[..n], r.toId - {last});
      forall i | 0 <= i < n ensures r'.keys[i] in r'.toId && r'.toId[r'.keys[i]] == i {
        assert r.keys[i] != last;
      }
      RegistrySize(r');
      assert r.toId.Keys == r'.toId.Keys + {last};
    }
  }

  /** A registry whose keys are drawn from `all` lists at most `|all|` keys. */
  lemma RegistryFits<K>(r: Registry<K>, all: set<K>)
    requires RegistryValid(r) && forall k :: k in r.toId ==> k in all
    ensures |r.keys| <= |all|
  {
    RegistrySize(r);
    SubsetCardinality(r.toId.Keys, all);
  }

  /** `xs` with every element after its first occurrence left out. */
  function Dedup<K(==)>(xs: seq<K>): seq<K>
  {
    if xs == [] then []
    else if xs[|xs| - 1] in xs[..|xs| - 1] then Dedup(xs[..|xs| - 1])
    else Dedup(xs[..|xs| - 1]) + [xs[|xs| - 1]]
  }

  /** An element is kept by `Dedup` exactly when it is in the list. */
  lemma {:induction false} DedupMembers<K>(xs: seq<K>, k: K)
    ensures k in Dedup(xs) <==> k in xs
    decreases |xs|
  {
    if xs != [] {
      DedupMembers(xs[..|xs| - 1], k);
      assert xs == xs[..|xs| - 1] + [xs[|xs| - 1]];
    }
  }

  /**
   * Adding the elements of a list one by one lists each of them once, in
   * the order of its first occurrence: adding one more element extends that.
   */
  lemma RegisterDedup<K>(r: Registry<K>, xs: seq<K>, k: K)
    requires RegistryValid(r) && r.keys == Dedup(xs)
    ensures Register(r, k).keys == Dedup(xs + [k])
  {
    DedupMembers(xs, k);
    assert (xs + [k])[..|xs|] == xs;
    assert k in r.toId ==> r.keys[r.toId[k]] == k;
    assert k in r.keys ==> k in r.toId by {
      if k in r.keys {
        var i :| 0 <= i < |r.keys| && r.keys[i] == k;
      }
    }
  }

  /** The copying loops of `GetApiFunctions` and `GetConstructors`: the keys in the order they were added. */
  method ListKeys<K(==)>(r: Registry<K>) returns (ks: seq<K>)
    requires RegistryValid(r)
    ensures ks == r.keys
    ensures forall i :: 0 <= i < |ks| ==> Find(r, ks[i]) == Some(i)
  {
    ks := [];
    var i := 0;
    while i < |r.keys|
      invariant i <= |r.keys| && ks == r.keys[..i]
    {
      ks := ks + [r.keys[i]];
      i := i + 1;
    }
  }

  // ---------------------------------------------------------------------
  // Multimaps
  // ---------------------------------------------------------------------

  /** The values a multimap, written as its `(key, value)` pairs, holds for `a`, in insertion order. */
  function Matching<A(==), B>(pairs: seq<(A, B)>, a: A): (r: seq<B>)
  {
    if pairs == [] then []
    else if pairs[|pairs| - 1].0 == a then Matching(pairs[..|pairs| - 1], a) + [pairs[|pairs| - 1].1]
    else Matching(pairs[..|pairs| - 1], a)
  }

  /** A value is held for `a` exactly when the pair `(a, b)` was inserted. */
  lemma {:induction false} MatchingMembers<A, B>(pairs: seq<(A, B)>, a: A, b: B)
    ensures b in Matching(pairs, a) <==> (a, b) in pairs
    decreases |pairs|
  {
    if pairs != [] {
      var p := pairs[..|pairs| - 1];
      MatchingMembers(p, a, b);
      assert pairs == p + [pairs[|pairs| - 1]];
    }
  }

  /** `equal_range` collected into a vector: the values held for `a`. */
  method EqualRange<A(==), B>(pairs: seq<(A, B)>, a: A) returns (r: seq<B>)
    ensures r == Matching(pairs, a)
  {
    r := [];
    var i := 0;
    while i < |pairs|
      invariant i <= |pairs| && r == Matching(pairs[..i], a)
    {
      assert pairs[..i + 1][..i] == pairs[..i];
      if pairs[i].0 == a {
        r := r + [pairs[i].1];
      }
      i := i + 1;
    }
    assert pairs[..i] == pairs;
  }

  /** `exist` on a multimap: some value is held for `a`. */
  predicate HasKey<A(==), B>(pairs: seq<(A, B)>, a: A)
  {
    exists j :: 0 <= j < |pairs| && pairs[j].0 == a
  }

  /** A key is held exactly when `equal_range` is not empty. */
  lemma {:induction false} HasKeyMatching<A, B>(pairs: seq<(A, B)>, a: A)
    ensures HasKey(pairs, a) <==> Matching(pairs, a) != []
    decreases |pairs|
  {
    if pairs != [] {
      var p := pairs[..|pairs| - 1];
      HasKeyMatching(p, a);
      if HasKey(pairs, a) && pairs[|pairs| - 1].0 != a {
        var j :| 0 <= j < |pairs| && pairs[j].0 == a;
        assert p[j].0 == a;
      }
    }
  }

  /** Inserting more pairs keeps every key held. */
  lemma HasKeyPrefix<A, B>(pairs: seq<(A, B)>, n: nat, a: A)
    requires n <= |pairs| && HasKey(pairs[..n], a)
    ensures HasKey(pairs, a)
  {
    var j :| 0 <= j < n && pairs[..n][j].0 == a;
    assert pairs[j].0 == a;
  }


  // ---------------------------------------------------------------------
  // The frozen context
  // ---------------------------------------------------------------------

  /** An entry of the callback list: a candidate function, or a signature no candidate has. */
  datatype CallbackCandidate = CandidateFunction(func: Function) | SynthesisedSignature(signature: Signature)

  /** The signature a callback entry stands for. */
  function CandidateSignature(c: CallbackCandidate): Signature
  {
    match c
    case CandidateFunction(f) => FromType(f.functionType)
    case SynthesisedSignature(s) => s
  }

  /** The entries `AddCallbackFunctionCandidate` accepts from `fs`: those whose signature is registered. */
  function Accepted(sigs: set<Signature>, fs: seq<Function>): (r: seq<CallbackCandidate>)
    ensures forall i :: 0 <= i < |r| ==> r[i].CandidateFunction? && CandidateSignature(r[i]) in sigs
  {
    if fs == [] then []
    else if FromType(fs[|fs| - 1].functionType) in sigs then Accepted(sigs, fs[..|fs| - 1]) + [CandidateFunction(fs[|fs| - 1])]
    else Accepted(sigs, fs[..|fs| - 1])
  }

  /** A candidate is accepted exactly when it is offered and its signature is registered. */
  lemma {:induction false} AcceptedMembers(sigs: set<Signature>, fs: seq<Function>, f: Function)
    ensures CandidateFunction(f) in Accepted(sigs, fs) <==> f in fs && FromType(f.functionType) in sigs
    decreases |fs|
  {
    if fs != [] {
      AcceptedMembers(sigs, fs[..|fs| - 1], f);
      assert fs == fs[..|fs| - 1] + [fs[|fs| - 1]];
    }
  }

  /** No candidate of `fs` has the signature `s`. */
  predicate NoCandidateHas(fs: seq<Function>, s: Signature)
  {
    forall f :: f in fs ==> FromType(f.functionType) != s
  }

  /**
   * The callback list after freezing: first the accepted candidates in the
   * order they were offered, then one entry standing for each remaining
   * signature, which no candidate has.
   */
  predicate CallbacksFromCandidates(sigs: set<Signature>, fs: seq<Function>, cf: seq<CallbackCandidate>)
  {
    var a := Accepted(sigs, fs);
    |a| <= |cf| && cf[..|a|] == a
    && (forall k :: |a| <= k < |cf| ==> cf[k].SynthesisedSignature? && cf[k].signature in sigs && NoCandidateHas(fs, cf[k].signature))
    && (forall k, l :: |a| <= k < l < |cf| ==> cf[k] != cf[l])
  }

  /** Every accepted candidate's signature is recorded in the signature-to-id multimap. */
  lemma CandidatesRecorded(sigs: set<Signature>, fs: seq<Function>, cf: seq<CallbackCandidate>, ids: seq<(Signature, nat)>)
    requires cf == Accepted(sigs, fs) && |ids| == |cf|
    requires forall j :: 0 <= j < |cf| ==> ids[j] == (CandidateSignature(cf[j]), j)
    ensures forall s :: s in sigs && !HasKey(ids, s) ==> NoCandidateHas(fs, s)
  {
    forall s, f | s in sigs && !HasKey(ids, s) && f in fs ensures FromType(f.functionType) != s {
      if FromType(f.functionType) == s {
        AcceptedMembers(sigs, fs, f);
      }
    }
  }

  /**
   * `FrozenContext`: the id registries of the API functions, constructors
   * and types, the constructor multimaps, the callback signatures and the
   * callback list with its signature-to-id multimap. The multimaps are
   * written as their `(key, value)` pairs in insertion order.
   */
  class FrozenContext {
    const graph: TypeGraph
    var apis: Registry<Function>
    var ctors: Registry<Function>
    var types: Registry<TypeRef>
    var typeToCtors: seq<(TypeRef, Function)>
    var ctorToType: map<Function, TypeRef>
    var callbackSignatures: set<Signature>
    var callbackFuncs: seq<CallbackCandidate>
    var signatureToFuncIds: seq<(Signature, nat)>

    /** The API registry is consistent. */
    ghost predicate ApisValid()
      reads this`apis
    {
      RegistryValid(apis)
    }

    /**
     * The constructor registry is consistent, the `j`-th constructor is the
     * `j`-th pair of the type-to-constructor multimap, and exactly the
     * constructors with ids have a constructing type, the one of their pair.
     */
    ghost predicate CtorsValid()
      reads this`ctors, this`typeToCtors, this`ctorToType
    {
      RegistryValid(ctors) && |typeToCtors| == |ctors.keys|
      && (forall c :: c in ctorToType <==> c in ctors.toId)
      && forall j :: 0 <= j < |typeToCtors| ==>
        typeToCtors[j].1 == ctors.keys[j] && ctors.keys[j] in ctorToType && ctorToType[ctors.keys[j]] == typeToCtors[j].0
    }

    /**
     * The type registry is consistent and holds types of the module, and the
     * signature of every function type with an id is a callback signature.
     */
    ghost predicate TypesValid()
      reads this`types, this`callbackSignatures
    {
      RegistryValid(types)
      && forall t :: t in types.toId ==> t in graph && (graph[t].FunctionTy? ==> FromType(graph[t].functionType) in callbackSignatures)
    }

    /**
     * The `j`-th entry of the callback list stands for a callback signature
     * and is recorded under that signature as the `j`-th pair of the
     * signature-to-id multimap.
     */
    ghost predicate CallbacksValid()
      reads this`callbackSignatures, this`callbackFuncs, this`signatureToFuncIds
    {
      |signatureToFuncIds| == |callbackFuncs|
      && forall j :: 0 <= j < |callbackFuncs| ==>
        signatureToFuncIds[j] == (CandidateSignature(callbackFuncs[j]), j) && CandidateSignature(callbackFuncs[j]) in callbackSignatures
    }

    /** Every part of the frozen context is consistent. */
    ghost predicate Valid()
      reads this
    {
      ApisValid() && CtorsValid() && TypesValid() && CallbacksValid()
    }

    /** A new frozen context: every registry and list empty. */
    constructor (graph: TypeGraph)
      ensures Valid() && this.graph == graph
      ensures apis == EmptyRegistry() && ctors == EmptyRegistry() && types == EmptyRegistry()
      ensures typeToCtors == [] && ctorToType == map[] && callbackSignatures == {} && callbackFuncs == [] && signatureToFuncIds == []
    {
      this.graph := graph;
      apis, ctors, types := EmptyRegistry(), EmptyRegistry(), EmptyRegistry();
      typeToCtors, ctorToType := [], map[];
      callbackSignatures, callbackFuncs, signatureToFuncIds := {}, [], [];
    }

    /** `AddApiFunction`: the function gets an id unless it has one already (`HasApiFunction`). */
    method AddApiFunction(func: Function)
      requires ApisValid()
      modifies this`apis
      ensures ApisValid() && apis == Register(old(apis), func)
    {
      apis := Register(apis, func);
    }

    /**
     * `AddConstructor`: unless the constructor has an id already, it gets
     * one and is recorded with `ty` in both constructor multimaps.
     */
    method AddConstructor(ty: TypeRef, ctor: Function)
      requires CtorsValid()
      modifies this`ctors, this`typeToCtors, this`ctorToType
      ensures CtorsValid() && ctors == Register(old(ctors), ctor)
      ensures old(ctor in ctors.toId) ==> typeToCtors == old(typeToCtors) && ctorToType == old(ctorToType)
      ensures old(ctor !in ctors.toId) ==> typeToCtors == old(typeToCtors) + [(ty, ctor)] && ctorToType == old(ctorToType)[ctor := ty]
    {
      if ctor in ctors.toId {
        return;
      }
      ctors := Register(ctors, ctor);
      typeToCtors := typeToCtors + [(ty, ctor)];
      ctorToType := ctorToType[ctor := ty];
    }

    /**
     * `AddType`: unless the type has an id already, it gets one, and a
     * function type's signature becomes a callback signature.
     */
    method AddType(ty: TypeRef)
      requires TypesValid() && ty in graph
      modifies this`types, this`callbackSignatures
      ensures TypesValid() && types == Register(old(types), ty)
      ensures callbackSignatures ==
        if old(ty in types.toId) || !graph[ty].FunctionTy? then old(callbackSignatures)
        else old(callbackSignatures) + {FromType(graph[ty].functionType)}
    {
      if ty in types.toId {
        return;
      }
      types := Register(types, ty);
      if graph[ty].FunctionTy? {
        callbackSignatures := callbackSignatures + {FromType(graph[ty].functionType)};
      }
    }

    /** `exist` on the signature-to-id multimap. */
    predicate HasCallbackId(s: Signature)
      reads this`signatureToFuncIds
    {
      HasKey(signatureToFuncIds, s)
    }

    /**
     * `AddCallbackFunctionCandidate`: a function whose signature is not a
     * callback signature is refused; otherwise it is appended to the
     * callback list and its position recorded under its signature.
     */
    method AddCallbackFunctionCandidate(func: Function) returns (added: bool)
      requires CallbacksValid()
      modifies this`callbackFuncs, this`signatureToFuncIds
      ensures CallbacksValid()
      ensures added <==> FromType(func.functionType) in callbackSignatures
      ensures added ==>
        callbackFuncs == old(callbackFuncs) + [CandidateFunction(func)] &&
        signatureToFuncIds == old(signatureToFuncIds) + [(FromType(func.functionType), |old(callbackFuncs)|)]
      ensures !added ==> callbackFuncs == old(callbackFuncs) && signatureToFuncIds == old(signatureToFuncIds)
    {
      var signature := FromType(func.functionType);
      if signature !in callbackSignatures {
        return false;
      }
      var id := |callbackFuncs|;
      callbackFuncs := callbackFuncs + [CandidateFunction(func)];
      signatureToFuncIds := signatureToFuncIds + [(signature, id)];
      added := true;
    }

    /** The loop of `Freeze` over the callback candidates: each offered in order. */
    method AddCallbackFunctionCandidates(fs: seq<Function>)
      requires CallbacksValid()
      modifies this`callbackFuncs, this`signatureToFuncIds
      ensures CallbacksValid() && callbackFuncs == old(callbackFuncs) + Accepted(callbackSignatures, fs)
    {
      var j := 0;
      while j < |fs|
        invariant j <= |fs| && CallbacksValid() && callbackFuncs == old(callbackFuncs) + Accepted(callbackSignatures, fs[..j])
      {
        var _ := AddCallbackFunctionCandidate(fs[j]);
        assert fs[..j + 1][..j] == fs[..j];
        j := j + 1;
      }
      assert fs[..j] == fs;
    }

    /**
     * The callback half of `Freeze`: the candidates are offered in order,
     * then every callback signature left without a callback id gets one.
     */
    method CollectCallbackFunctions(fs: seq<Function>)
      requires CallbacksValid() && callbackFuncs == [] && signatureToFuncIds == []
      modifies this`callbackFuncs, this`signatureToFuncIds
      ensures CallbacksValid()
      ensures forall s :: s in callbackSignatures ==> HasCallbackId(s)
      ensures CallbacksFromCandidates(callbackSignatures, fs, callbackFuncs)
    {
      AddCallbackFunctionCandidates(fs);
      ghost var ids := signatureToFuncIds;
      PopulateLackingCallbackFunction();
      CandidatesRecorded(callbackSignatures, fs, callbackFuncs[..|ids|], ids);
    }

    /** One step of `PopulateLackingCallbackFunction`: an entry standing for `signature` is appended and recorded. */
    method AddSynthesised(signature: Signature)
      requires CallbacksValid() && signature in callbackSignatures
      modifies this`callbackFuncs, this`signatureToFuncIds
      ensures CallbacksValid()
      ensures callbackFuncs == old(callbackFuncs) + [SynthesisedSignature(signature)]
      ensures signatureToFuncIds == old(signatureToFuncIds) + [(signature, |old(callbackFuncs)|)]
    {
      var id := |callbackFuncs|;
      callbackFuncs := callbackFuncs + [SynthesisedSignature(signature)];
      signatureToFuncIds := signatureToFuncIds + [(signature, id)];
    }

    /**
     * `PopulateLackingCallbackFunction`: each callback signature without a
     * callback id gets exactly one new entry standing for the signature
     * itself, so that afterwards every callback signature has a callback
     * id. The signatures are visited in the unspecified order of an
     * `unordered_set`, so the order of the new entries is left open.
     */
    method PopulateLackingCallbackFunction()
      requires CallbacksValid()
      modifies this`callbackFuncs, this`signatureToFuncIds
      ensures CallbacksValid()
      ensures |old(callbackFuncs)| <= |callbackFuncs| && callbackFuncs[..|old(callbackFuncs)|] == old(callbackFuncs)
      ensures forall s :: s in callbackSignatures ==> HasCallbackId(s)
      ensures forall j :: |old(callbackFuncs)| <= j < |callbackFuncs| ==>
        callbackFuncs[j].SynthesisedSignature? && !HasKey(old(signatureToFuncIds), callbackFuncs[j].signature)
      ensures forall j, k :: |old(callbackFuncs)| <= j < k < |callbackFuncs| ==> callbackFuncs[j] != callbackFuncs[k]
    {
      ghost var start := callbackFuncs;
      ghost var startIds := signatureToFuncIds;
      var remaining := callbackSignatures;
      while remaining != {}
        invariant CallbacksValid() && remaining <= callbackSignatures
        invariant |start| <= |callbackFuncs| && callbackFuncs[..|start|] == start && signatureToFuncIds[..|start|] == startIds
        invariant forall s :: s in callbackSignatures && s !in remaining ==> HasKey(signatureToFuncIds, s)
        invariant forall j :: |start| <= j < |callbackFuncs| ==>
          callbackFuncs[j].SynthesisedSignature? && !HasKey(startIds, callbackFuncs[j].signature) && callbackFuncs[j].signature !in remaining
        invariant forall j, k :: |start| <= j < k < |callbackFuncs| ==> callbackFuncs[j] != callbackFuncs[k]
        decreases |remaining|
      {
        var signature :| signature in remaining;
        remaining := remaining - {signature};
        if HasCallbackId(signature) {
          continue;
        }
        if HasKey(startIds, signature) {
          HasKeyPrefix(signatureToFuncIds, |start|, signature);
          assert false;
        }
        ghost var ids := signatureToFuncIds;
        AddSynthesised(signature);
        forall s | s in callbackSignatures && s !in remaining ensures HasKey(signatureToFuncIds, s) {
          if s == signature {
            assert signatureToFuncIds[|ids|].0 == s;
          } else {
            assert signatureToFuncIds[..|ids|] == ids;
            HasKeyPrefix(signatureToFuncIds, |ids|, s);
          }
        }
        assert signatureToFuncIds[..|start|] == ids[..|start|];
      }
    }

    /** `GetApiFunctions`: the API functions in the order they were added; the `i`-th has id `i`. */
    method GetApiFunctions() returns (funcs: seq<Function>)
      requires ApisValid()
      ensures funcs == apis.keys
      ensures forall i :: 0 <= i < |funcs| ==> Find(apis, funcs[i]) == Some(i)
    {
      funcs := ListKeys(apis);
    }

    /** `GetConstructors`: the constructors in the order they were added; the `i`-th has id `i`. */
    method GetConstructors() returns (ctorList: seq<Function>)
      requires CtorsValid()
      ensures ctorList == ctors.keys
      ensures forall i :: 0 <= i < |ctorList| ==> Find(ctors, ctorList[i]) == Some(i)
    {
      ctorList := ListKeys(ctors);
    }

    /** `GetConstructingType`: the type a constructor was added for, which exactly the constructors with ids have. */
    function GetConstructingType(ctor: Function): (r: Option<TypeRef>)
      reads this`ctors, this`typeToCtors, this`ctorToType
      requires CtorsValid()
      ensures r.Some? <==> ctor in ctors.toId
      ensures r.Some? ==> (r.value, ctor) in typeToCtors
    {
      if ctor in ctorToType then
        assert (ctorToType[ctor], ctor) == typeToCtors[ctors.toId[ctor]];
        Some(ctorToType[ctor])
      else None
    }

    /**
     * `GetConstructorsOfType`: the constructors added for the type, none
     * when the multimap has no pair for it; each of them has an id and has
     * the type as its constructing type.
     */
    method GetConstructorsOfType(ty: TypeRef) returns (ret: seq<Function>)
      requires CtorsValid()
      ensures ret == Matching(typeToCtors, ty)
      ensures forall i :: 0 <= i < |ret| ==> ret[i] in ctors.toId && GetConstructingType(ret[i]) == Some(ty)
    {
      if !HasKey(typeToCtors, ty) {
        HasKeyMatching(typeToCtors, ty);
        return [];
      }
      ret := EqualRange(typeToCtors, ty);
      forall i | 0 <= i < |ret| ensures ret[i] in ctors.toId && GetConstructingType(ret[i]) == Some(ty) {
        MatchingMembers(typeToCtors, ty, ret[i]);
        var j :| 0 <= j < |typeToCtors| && typeToCtors[j] == (ty, ret[i]);
      }
    }

    /**
     * `GetCallbackFunctions(signature)`: the callback ids recorded for the
     * signature; each names an entry standing for that signature.
     */
    method GetCallbackFunctions(signature: Signature) returns (ret: seq<nat>)
      requires CallbacksValid()
      ensures ret == Matching(signatureToFuncIds, signature)
      ensures forall i :: 0 <= i < |ret| ==> ret[i] < |callbackFuncs| && CandidateSignature(callbackFuncs[ret[i]]) == signature
    {
      ret := EqualRange(signatureToFuncIds, signature);
      forall i | 0 <= i < |ret| ensures ret[i] < |callbackFuncs| && CandidateSignature(callbackFuncs[ret[i]]) == signature {
        MatchingMembers(signatureToFuncIds, signature, ret[i]);
        var j :| 0 <= j < |signatureToFuncIds| && signatureToFuncIds[j] == (signature, ret[i]);
      }
    }
  }


  // ---------------------------------------------------------------------
  // What freezing reaches
  // ---------------------------------------------------------------------

  /** Every type of the constructor list is a type of the module, and so are its functions' types. */
  predicate CtorsInGraph(g: TypeGraph, ctorPairs: seq<(TypeRef, Function)>)
  {
    forall j :: 0 <= j < |ctorPairs| ==> ctorPairs[j].0 in g && FunctionInGraph(g, ctorPairs[j].1)
  }

  /** Every return and parameter type of the function type has an id. */
  predicate FunctionTypeFrozen(ft: FunctionType, frozenTypes: set<TypeRef>)
  {
    forall t :: t in FunctionTypeRefs(ft) ==> t in frozenTypes
  }

  /**
   * A struct type is frozen through its fields when it is literal, has no
   * name or has no constructor; otherwise through its constructors.
   */
  predicate IsAggregate(ctorPairs: seq<(TypeRef, Function)>, t: TypeRef, s: LlvmType)
    requires s.StructTy?
  {
    s.literal || s.name == "" || Matching(ctorPairs, t) == []
  }

  /**
   * What `FreezeType` goes on to freeze after `t` is frozen: the pointee,
   * the element type, the fields of an aggregate struct, the constructors of
   * a struct with constructors (and their return and parameter types), and
   * the return and parameter types of a function type.
   */
  predicate ChildrenFrozen(g: TypeGraph, ctorPairs: seq<(TypeRef, Function)>, t: TypeRef, frozenTypes: set<TypeRef>, frozenCtors: set<Function>)
    requires t in g
  {
    match g[t]
    case PointerTy(pointee) => pointee in frozenTypes
    case ArrayTy(_, element) => element in frozenTypes
    case StructTy(_, _, elements) =>
      if IsAggregate(ctorPairs, t, g[t]) then forall i :: 0 <= i < |elements| ==> elements[i] in frozenTypes
      else
        forall i :: 0 <= i < |Matching(ctorPairs, t)| ==>
          Matching(ctorPairs, t)[i] in frozenCtors && FunctionTypeFrozen(Matching(ctorPairs, t)[i].functionType, frozenTypes)
    case FunctionTy(ft) => FunctionTypeFrozen(ft, frozenTypes)
    case _ => true
  }

  /**
   * The frozen types are closed under what freezing reaches, except for the
   * types in `pending`, whose freezing is still under way.
   */
  predicate ClosedExcept(g: TypeGraph, ctorPairs: seq<(TypeRef, Function)>, frozenTypes: set<TypeRef>, frozenCtors: set<Function>, pending: set<TypeRef>)
  {
    forall t :: t in frozenTypes && t in g && t !in pending ==> ChildrenFrozen(g, ctorPairs, t, frozenTypes, frozenCtors)
  }

  /** Freezing more keeps what was reached reached. */
  lemma ChildrenFrozenMonotone(g: TypeGraph, ctorPairs: seq<(TypeRef, Function)>, t: TypeRef, f0: set<TypeRef>, c0: set<Function>, f1: set<TypeRef>, c1: set<Function>)
    requires t in g && f0 <= f1 && c0 <= c1 && ChildrenFrozen(g, ctorPairs, t, f0, c0)
    ensures ChildrenFrozen(g, ctorPairs, t, f1, c1)
  {
    match g[t]
    case StructTy(_, _, _) =>
      if !IsAggregate(ctorPairs, t, g[t]) {
        var cs := Matching(ctorPairs, t);
        forall i | 0 <= i < |cs| ensures cs[i] in c1 && FunctionTypeFrozen(cs[i].functionType, f1) {
          assert FunctionTypeFrozen(cs[i].functionType, f0);
        }
      }
    case _ =>
  }

  /** A type whose freezing starts is frozen and pending. */
  lemma StartPending(g: TypeGraph, ctorPairs: seq<(TypeRef, Function)>, f: set<TypeRef>, c: set<Function>, pending: set<TypeRef>, t: TypeRef)
    requires ClosedExcept(g, ctorPairs, f, c, pending)
    ensures ClosedExcept(g, ctorPairs, f + {t}, c, pending + {t})
  {
    forall u | u in f + {t} && u in g && u !in pending + {t} ensures ChildrenFrozen(g, ctorPairs, u, f + {t}, c) {
      ChildrenFrozenMonotone(g, ctorPairs, u, f, c, f + {t}, c);
    }
  }

  /** A type whose freezing ends with what it reaches frozen is no longer pending. */
  lemma FinishPending(g: TypeGraph, ctorPairs: seq<(TypeRef, Function)>, f: set<TypeRef>, c: set<Function>, pending: set<TypeRef>, t: TypeRef)
    requires t in g && ClosedExcept(g, ctorPairs, f, c, pending + {t}) && ChildrenFrozen(g, ctorPairs, t, f, c)
    ensures ClosedExcept(g, ctorPairs, f, c, pending)
  {
  }

  /** A constructor given an id keeps the frozen types closed. */
  lemma AddCtorKeepsClosed(g: TypeGraph, ctorPairs: seq<(TypeRef, Function)>, f: set<TypeRef>, c0: set<Function>, c1: set<Function>, pending: set<TypeRef>)
    requires ClosedExcept(g, ctorPairs, f, c0, pending) && c0 <= c1
    ensures ClosedExcept(g, ctorPairs, f, c1, pending)
  {
    forall u | u in f && u in g && u !in pending ensures ChildrenFrozen(g, ctorPairs, u, f, c1) {
      ChildrenFrozenMonotone(g, ctorPairs, u, f, c0, f, c1);
    }
  }

  /** Every return and parameter type of the functions has an id. */
  predicate FunctionsFrozen(fs: seq<Function>, frozenTypes: set<TypeRef>)
  {
    forall k :: 0 <= k < |fs| ==> FunctionTypeFrozen(fs[k].functionType, frozenTypes)
  }

  /** Freezing one more function, and maybe more types, keeps the earlier ones frozen. */
  lemma FunctionsFrozenSnoc(fs: seq<Function>, f: Function, f0: set<TypeRef>, f1: set<TypeRef>)
    requires FunctionsFrozen(fs, f0) && f0 <= f1 && FunctionTypeFrozen(f.functionType, f1)
    ensures FunctionsFrozen(fs + [f], f1)
  {
    forall k | 0 <= k < |fs| + 1 ensures FunctionTypeFrozen((fs + [f])[k].functionType, f1) {
      if k < |fs| {
        assert FunctionTypeFrozen(fs[k].functionType, f0);
      }
    }
  }

  /** Freezing more keeps a function type's types frozen. */
  lemma FunctionTypeFrozenMonotone(ft: FunctionType, f0: set<TypeRef>, f1: set<TypeRef>)
    requires f0 <= f1 && FunctionTypeFrozen(ft, f0)
    ensures FunctionTypeFrozen(ft, f1)
  {
  }


  // ---------------------------------------------------------------------
  // The extractor context
  // ---------------------------------------------------------------------

  /**
   * `ExtractorContext`: what the pass found, and the frozen context once
   * `Freeze` has run (null before). The constructors are an
   * `unordered_multimap` from type to constructor, written as its pairs.
   */
  class ExtractorContext {
    const graph: TypeGraph
    var apis: seq<Function>
    var ctors: seq<(TypeRef, Function)>
    var callbackFunctions: seq<Function>
    var frozen: FrozenContext?

    /** A new context: nothing found, not frozen. */
    constructor (graph: TypeGraph)
      ensures this.graph == graph && apis == [] && ctors == [] && callbackFunctions == [] && frozen == null
    {
      this.graph := graph;
      apis, ctors, callbackFunctions := [], [], [];
      frozen := null;
    }

    /** `AddApiFunction`: allowed only before freezing (`EnsureNotFrozen`); the function is appended. */
    method AddApiFunction(func: Function)
      requires frozen == null
      modifies this`apis
      ensures apis == old(apis) + [func]
    {
      apis := apis + [func];
    }

    /** `AddConstructor`: allowed only before freezing; the pair is inserted into the constructor multimap. */
    method AddConstructor(ty: TypeRef, ctor: Function)
      requires frozen == null
      modifies this`ctors
      ensures ctors == old(ctors) + [(ty, ctor)]
    {
      ctors := ctors + [(ty, ctor)];
    }

    /** `AddCallbackFunctionCandidate`: allowed only before freezing; the candidate is appended. */
    method AddCallbackFunctionCandidate(func: Function)
      requires frozen == null
      modifies this`callbackFunctions
      ensures callbackFunctions == old(callbackFunctions) + [func]
    {
      callbackFunctions := callbackFunctions + [func];
    }

    /** The types that have an id. */
    ghost function FrozenTypes(): set<TypeRef>
      reads this`frozen, frozen`types
      requires frozen != null
    {
      frozen.types.toId.Keys
    }

    /** The constructors that have an id. */
    ghost function FrozenCtors(): set<Function>
      reads this`frozen, frozen`ctors
      requires frozen != null
    {
      frozen.ctors.toId.Keys
    }

    /** The number of types of the module still without an id: what the freezing recursion decreases. */
    ghost function Left(): int
      reads this`frozen, frozen`types
      requires frozen != null
    {
      |graph.Keys| - |frozen.types.keys|
    }

    /**
     * The state freezing works in: consistent type and constructor
     * registries of a closed module, holding only accepted types.
     */
    ghost predicate Freezing()
      reads this`frozen, this`ctors, frozen`types, frozen`callbackSignatures, frozen`ctors, frozen`typeToCtors, frozen`ctorToType
      requires frozen != null
    {
      frozen.graph == graph && frozen.TypesValid() && frozen.CtorsValid()
      && |frozen.types.keys| <= |graph.Keys| && GraphClosed(graph) && CtorsInGraph(graph, ctors)
      && forall t :: t in frozen.types.toId ==> t in graph && IsValidType(graph[t])
    }

    /** The frozen types are closed except for `pending`. */
    ghost predicate Closed(pending: set<TypeRef>)
      reads this`frozen, this`ctors, frozen`types, frozen`ctors
      requires frozen != null
    {
      ClosedExcept(graph, ctors, FrozenTypes(), FrozenCtors(), pending)
    }

    /**
     * `FreezeType`: a type that has an id already is left alone, which is
     * what makes the recursion end on recursive types; a type the extractor
     * does not accept aborts (`ok` false); otherwise the type gets an id and
     * what it reaches is frozen.
     */
    method FreezeType(ty: TypeRef, ghost bound: nat, ghost pending: set<TypeRef>) returns (ok: bool)
      requires frozen != null && Freezing() && ty in graph && Left() <= bound && Closed(pending)
      modifies frozen`types, frozen`callbackSignatures, frozen`ctors, frozen`typeToCtors, frozen`ctorToType
      ensures Freezing() && old(FrozenTypes()) <= FrozenTypes() && old(FrozenCtors()) <= FrozenCtors() && Left() <= old(Left())
      ensures ok ==> ty in FrozenTypes() && Closed(pending)
      ensures !ok ==> HasUnsupported(graph)
      decreases bound, 1
    {
      if ty in frozen.types.toId {
        return true;
      }
      if !IsValidType(graph[ty]) {
        return false;
      }
      ghost var before := FrozenTypes();
      frozen.AddType(ty);
      assert FrozenTypes() == before + {ty};
      RegistryFits(frozen.types, graph.Keys);
      StartPending(graph, ctors, before, FrozenCtors(), pending, ty);
      ok := FreezeChildren(ty, bound - 1, pending + {ty});
      if ok {
        FinishPending(graph, ctors, FrozenTypes(), FrozenCtors(), pending, ty);
      }
    }

    /**
     * The branches of `FreezeType` after the type got its id: the pointee,
     * the element type, the fields of an aggregate struct or the
     * constructors of the others, the return and parameter types of a
     * function type.
     */
    method FreezeChildren(ty: TypeRef, ghost bound: nat, ghost pending: set<TypeRef>) returns (ok: bool)
      requires frozen != null && Freezing() && ty in graph && Left() <= bound && Closed(pending)
      modifies frozen`types, frozen`callbackSignatures, frozen`ctors, frozen`typeToCtors, frozen`ctorToType
      ensures Freezing() && old(FrozenTypes()) <= FrozenTypes() && old(FrozenCtors()) <= FrozenCtors() && Left() <= old(Left())
      ensures ok ==> Closed(pending) && ChildrenFrozen(graph, ctors, ty, FrozenTypes(), FrozenCtors())
      ensures !ok ==> HasUnsupported(graph)
      decreases bound, 7
    {
      RefsInGraph(graph, ty);
      match graph[ty]
      case PointerTy(pointee) =>
        ok := FreezeType(pointee, bound, pending);
      case ArrayTy(_, element) =>
        ok := FreezeType(element, bound, pending);
      case StructTy(_, _, elements) =>
        if IsAggregate(ctors, ty, graph[ty]) {
          ok := FreezeTypes(elements, bound, pending);
        } else {
          var typeCtors := EqualRange(ctors, ty);
          forall i | 0 <= i < |typeCtors| ensures FunctionInGraph(graph, typeCtors[i]) {
            MatchingMembers(ctors, ty, typeCtors[i]);
          }
          ok := FreezeConstructors(ty, typeCtors, bound, pending);
        }
      case FunctionTy(ft) =>
        ok := FreezeTypes(FunctionTypeRefs(ft), bound, pending);
      case _ =>
        ok := true;
    }

    /** The loops of `FreezeType` over fields, returns and parameters: each type in order, stopping at an abort. */
    method FreezeTypes(ts: seq<TypeRef>, ghost bound: nat, ghost pending: set<TypeRef>) returns (ok: bool)
      requires frozen != null && Freezing() && (forall i :: 0 <= i < |ts| ==> ts[i] in graph) && Left() <= bound && Closed(pending)
      modifies frozen`types, frozen`callbackSignatures, frozen`ctors, frozen`typeToCtors, frozen`ctorToType
      ensures Freezing() && old(FrozenTypes()) <= FrozenTypes() && old(FrozenCtors()) <= FrozenCtors() && Left() <= old(Left())
      ensures ok ==> Closed(pending) && forall i :: 0 <= i < |ts| ==> ts[i] in FrozenTypes()
      ensures !ok ==> HasUnsupported(graph)
      decreases bound, 3
    {
      var i := 0;
      while i < |ts|
        invariant i <= |ts| && Freezing() && Closed(pending)
        invariant old(FrozenTypes()) <= FrozenTypes() && old(FrozenCtors()) <= FrozenCtors() && Left() <= old(Left())
        invariant forall k :: 0 <= k < i ==> ts[k] in FrozenTypes()
      {
        ok := FreezeNextType(ts, i, bound, pending);
        if !ok {
          return;
        }
        i := i + 1;
      }
      ok := true;
    }

    /** One round of the loop of `FreezeTypes`: the `i`-th type is frozen and the earlier ones stay frozen. */
    method FreezeNextType(ts: seq<TypeRef>, i: nat, ghost bound: nat, ghost pending: set<TypeRef>) returns (ok: bool)
      requires frozen != null && Freezing() && i < |ts| && ts[i] in graph && Left() <= bound && Closed(pending)
      requires forall k :: 0 <= k < i ==> ts[k] in FrozenTypes()
      modifies frozen`types, frozen`callbackSignatures, frozen`ctors, frozen`typeToCtors, frozen`ctorToType
      ensures Freezing() && old(FrozenTypes()) <= FrozenTypes() && old(FrozenCtors()) <= FrozenCtors() && Left() <= old(Left())
      ensures ok ==> Closed(pending) && forall k :: 0 <= k < i + 1 ==> ts[k] in FrozenTypes()
      ensures !ok ==> HasUnsupported(graph)
      decreases bound, 2
    {
      ghost var typesBefore := FrozenTypes();
      ok := FreezeType(ts[i], bound, pending);
      assert typesBefore <= FrozenTypes();
    }

    /** `FreezeConstructor`: the constructor gets an id, then its return and parameter types are frozen. */
    method FreezeConstructor(ty: TypeRef, ctor: Function, ghost bound: nat, ghost pending: set<TypeRef>) returns (ok: bool)
      requires frozen != null && Freezing() && FunctionInGraph(graph, ctor) && Left() <= bound && Closed(pending)
      modifies frozen`types, frozen`callbackSignatures, frozen`ctors, frozen`typeToCtors, frozen`ctorToType
      ensures Freezing() && old(FrozenTypes()) <= FrozenTypes() && old(FrozenCtors()) <= FrozenCtors() && Left() <= old(Left())
      ensures ctor in FrozenCtors()
      ensures ok ==> Closed(pending) && FunctionTypeFrozen(ctor.functionType, FrozenTypes())
      ensures !ok ==> HasUnsupported(graph)
      decreases bound, 4
    {
      ghost var before := FrozenCtors();
      frozen.AddConstructor(ty, ctor);
      AddCtorKeepsClosed(graph, ctors, FrozenTypes(), before, FrozenCtors(), pending);
      ok := FreezeTypes(FunctionTypeRefs(ctor.functionType), bound, pending);
    }

    /** The loop of `FreezeType` over a struct's constructors. */
    method FreezeConstructors(ty: TypeRef, cs: seq<Function>, ghost bound: nat, ghost pending: set<TypeRef>) returns (ok: bool)
      requires frozen != null && Freezing() && (forall i :: 0 <= i < |cs| ==> FunctionInGraph(graph, cs[i])) && Left() <= bound && Closed(pending)
      modifies frozen`types, frozen`callbackSignatures, frozen`ctors, frozen`typeToCtors, frozen`ctorToType
      ensures Freezing() && old(FrozenTypes()) <= FrozenTypes() && old(FrozenCtors()) <= FrozenCtors() && Left() <= old(Left())
      ensures ok ==> Closed(pending) && (forall i :: 0 <= i < |cs| ==> cs[i] in FrozenCtors()) && FunctionsFrozen(cs, FrozenTypes())
      ensures !ok ==> HasUnsupported(graph)
      decreases bound, 6
    {
      var i := 0;
      while i < |cs|
        invariant i <= |cs| && Freezing() && Closed(pending)
        invariant old(FrozenTypes()) <= FrozenTypes() && old(FrozenCtors()) <= FrozenCtors() && Left() <= old(Left())
        invariant (forall k :: 0 <= k < i ==> cs[k] in FrozenCtors()) && FunctionsFrozen(cs[..i], FrozenTypes())
      {
        ok := FreezeNextConstructor(ty, cs, i, bound, pending);
        if !ok {
          return;
        }
        i := i + 1;
      }
      assert cs[..i] == cs;
      ok := true;
    }

    /** One step of the loop of `FreezeType` over a struct's constructors: the `i`-th is frozen. */
    method FreezeNextConstructor(ty: TypeRef, cs: seq<Function>, i: nat, ghost bound: nat, ghost pending: set<TypeRef>) returns (ok: bool)
      requires frozen != null && Freezing() && i < |cs| && (forall k :: 0 <= k < |cs| ==> FunctionInGraph(graph, cs[k])) && Left() <= bound && Closed(pending)
      requires (forall k :: 0 <= k < i ==> cs[k] in FrozenCtors()) && FunctionsFrozen(cs[..i], FrozenTypes())
      modifies frozen`types, frozen`callbackSignatures, frozen`ctors, frozen`typeToCtors, frozen`ctorToType
      ensures Freezing() && old(FrozenTypes()) <= FrozenTypes() && old(FrozenCtors()) <= FrozenCtors() && Left() <= old(Left())
      ensures ok ==> Closed(pending) && (forall k :: 0 <= k < i + 1 ==> cs[k] in FrozenCtors()) && FunctionsFrozen(cs[..i + 1], FrozenTypes())
      ensures !ok ==> HasUnsupported(graph)
      decreases bound, 5
    {
      ghost var typesBefore := FrozenTypes();
      ok := FreezeConstructor(ty, cs[i], bound, pending);
      if ok {
        FunctionsFrozenSnoc(cs[..i], cs[i], typesBefore, FrozenTypes());
        assert cs[..i + 1] == cs[..i] + [cs[i]];
      }
    }

    /** `FreezeApiFunction`: the function gets an id, then its return and parameter types are frozen. */
    method FreezeApiFunction(func: Function) returns (ok: bool)
      requires frozen != null && Freezing() && frozen.ApisValid() && FunctionInGraph(graph, func) && Closed({})
      modifies frozen`apis, frozen`types, frozen`callbackSignatures, frozen`ctors, frozen`typeToCtors, frozen`ctorToType
      ensures Freezing() && frozen.ApisValid() && frozen.apis == Register(old(frozen.apis), func)
      ensures old(FrozenTypes()) <= FrozenTypes()
      ensures ok ==> Closed({}) && FunctionTypeFrozen(func.functionType, FrozenTypes())
      ensures !ok ==> HasUnsupported(graph)
    {
      frozen.AddApiFunction(func);
      ok := FreezeTypes(FunctionTypeRefs(func.functionType), Left(), {});
    }

    /** One step of the loop of `Freeze` over the API functions: the `i`-th is frozen. */
    method FreezeNextApiFunction(i: nat) returns (ok: bool)
      requires frozen != null && Freezing() && frozen.ApisValid() && Closed({}) && i < |apis| && FunctionInGraph(graph, apis[i])
      requires frozen.apis.keys == Dedup(apis[..i]) && FunctionsFrozen(apis[..i], FrozenTypes())
      modifies frozen`apis, frozen`types, frozen`callbackSignatures, frozen`ctors, frozen`typeToCtors, frozen`ctorToType
      ensures Freezing() && frozen.ApisValid() && frozen.apis.keys == Dedup(apis[..i + 1])
      ensures ok ==> Closed({}) && FunctionsFrozen(apis[..i + 1], FrozenTypes())
      ensures !ok ==> HasUnsupported(graph)
    {
      ghost var typesBefore := FrozenTypes();
      RegisterDedup(frozen.apis, apis[..i], apis[i]);
      ok := FreezeApiFunction(apis[i]);
      assert apis[..i + 1] == apis[..i] + [apis[i]];
      if ok {
        FunctionsFrozenSnoc(apis[..i], apis[i], typesBefore, FrozenTypes());
      }
    }

    /** The loop of `Freeze` over the API functions: each frozen in order, stopping at an abort. */
    method FreezeApiFunctions() returns (ok: bool)
      requires frozen != null && Freezing() && frozen.ApisValid() && frozen.apis.keys == [] && Closed({})
      requires forall i :: 0 <= i < |apis| ==> FunctionInGraph(graph, apis[i])
      modifies frozen`apis, frozen`types, frozen`callbackSignatures, frozen`ctors, frozen`typeToCtors, frozen`ctorToType
      ensures Freezing() && frozen.ApisValid()
      ensures ok ==> Closed({}) && frozen.apis.keys == Dedup(apis) && FunctionsFrozen(apis, FrozenTypes())
      ensures !ok ==> HasUnsupported(graph)
    {
      var i := 0;
      while i < |apis|
        invariant i <= |apis| && Freezing() && frozen.ApisValid() && Closed({})
        invariant frozen.apis.keys == Dedup(apis[..i]) && FunctionsFrozen(apis[..i], FrozenTypes())
      {
        ok := FreezeNextApiFunction(i);
        if !ok {
          return;
        }
        i := i + 1;
      }
      assert apis[..i] == apis;
      ok := true;
    }

    /**
     * `Freeze`: allowed only before freezing. A new frozen context is
     * created; the API functions are frozen in order, and an abort ends
     * freezing (`ok` false); then the callback candidates are offered in
     * order, and every callback signature no candidate has gets an entry
     * standing for itself.
     */
    method Freeze() returns (ok: bool)
      requires frozen == null && GraphClosed(graph) && CtorsInGraph(graph, ctors)
      requires forall i :: 0 <= i < |apis| ==> FunctionInGraph(graph, apis[i])
      modifies this`frozen
      ensures frozen != null && fresh(frozen)
      ensures !ok ==> HasUnsupported(graph)
      ensures ok ==> frozen.Valid() && Freezing() && Closed({})
      ensures ok ==> frozen.apis.keys == Dedup(apis)
      ensures ok ==> FunctionsFrozen(apis, FrozenTypes())
      ensures ok ==> forall s :: s in frozen.callbackSignatures ==> frozen.HasCallbackId(s)
      ensures ok ==> CallbacksFromCandidates(frozen.callbackSignatures, callbackFunctions, frozen.callbackFuncs)
    {
      var fc := new FrozenContext(graph);
      frozen := fc;
      ok := FreezeApiFunctions();
      if !ok {
        return;
      }
      fc.CollectCallbackFunctions(callbackFunctions);
    }
  }
}
