/**
 * The generator of new test cases and values (src/Fuzzer/TestCaseGenerator.cpp).
 *
 * A value of a type is either drawn from the pool of the type or built new
 * and entered into that pool; building a pointer, array, struct or
 * aggregate value generates its parts first. The source enters a compound
 * value into its pool before generating its parts. For the tree-shaped
 * types of this module a type's parts are other types, with pools of their
 * own, so every pool ends up with the same values in the same order either
 * way. For a type reached from its own parts that is not so: a part can
 * draw the half-built value from the pool and the value becomes cyclic;
 * module CyclicGeneration models that order over a type graph.
 */
module TestCaseGeneration {
  import opened MachineInts
  import opened Results
  import opened NativeValues
  import opened Corpora
  import opened Randomness
  import opened Generation

  /** The candidate placeholder indexes for an argument of type `ty`: the earlier calls, below `n`, that return a `ty`. */
  function PlaceholderCandidates(calls: seq<Api>, ty: Type, n: nat): (r: seq<nat>)
    requires n <= |calls|
    ensures |r| <= n
  {
    if n == 0 then []
    else PlaceholderCandidates(calls, ty, n - 1) + (if calls[n - 1].returnType == Some(ty) then [n - 1] else [])
  }

  /** A call below `n` is a candidate exactly when it returns a value of type `ty`; the candidates are in increasing order. */
  lemma {:induction false} PlaceholderCandidatesSpec(calls: seq<Api>, ty: Type, n: nat)
    requires n <= |calls|
    ensures forall k: nat :: k in PlaceholderCandidates(calls, ty, n) <==> k < n && calls[k].returnType == Some(ty)
    ensures forall i, j :: 0 <= i < j < |PlaceholderCandidates(calls, ty, n)| ==>
              PlaceholderCandidates(calls, ty, n)[i] < PlaceholderCandidates(calls, ty, n)[j]
  {
    if n > 0 {
      PlaceholderCandidatesSpec(calls, ty, n - 1);
      var prev := PlaceholderCandidates(calls, ty, n - 1);
      var extra: seq<nat> := if calls[n - 1].returnType == Some(ty) then [n - 1] else [];
      var r := PlaceholderCandidates(calls, ty, n);
      assert r == prev + extra;
      forall k: nat
        ensures k in r <==> k < n && calls[k].returnType == Some(ty)
      {
        assert k in r <==> k in prev || k in extra;
      }
      forall i, j | 0 <= i < j < |r|
        ensures r[i] < r[j]
      {
        if j >= |prev| {
          assert r[j] == n - 1;
          assert r[i] in prev;
        }
      }
    }
  }

  class TestCaseGenerator {
    const corpus: Corpus
    const rnd: Random
    /** The types values are generated for. */
    ghost const types: set<Type>
    /** The callback candidates of each function signature, as the store gives them. */
    const callbacks: map<u64, seq<u32>>
    /** The API functions of the store. */
    const funcs: seq<Api>

    /** The types form a table, the APIs use its types, and every pool holds values of its type. */
    ghost predicate Valid()
      reads this, corpus
    {
      TypeTable(types, callbacks) && ApisInTable(funcs, types) && PoolsFit(corpus.pools, types)
    }

    constructor (corpus: Corpus, rnd: Random, ghost types: set<Type>, callbacks: map<u64, seq<u32>>, funcs: seq<Api>)
      requires TypeTable(types, callbacks) && ApisInTable(funcs, types) && PoolsFit(corpus.pools, types)
      ensures this.corpus == corpus && this.rnd == rnd && this.types == types
      ensures this.callbacks == callbacks && this.funcs == funcs
      ensures Valid()
    {
      this.corpus := corpus;
      this.rnd := rnd;
      this.types := types;
      this.callbacks := callbacks;
      this.funcs := funcs;
    }

    /** `GetOrCreateObjectPool` on the corpus keeps every pool fitting. */
    method PoolFor(t: Type)
      requires Valid()
      modifies corpus
      ensures Valid() && t.id in corpus.pools && corpus.pools[t.id] == old(PoolOf(corpus.pools, t.id))
      ensures Unchanged(old(corpus.pools), corpus.pools, {t.id})
      ensures corpus.placeholderPool == old(corpus.placeholderPool) && corpus.testCases == old(corpus.testCases)
    {
      ghost var before := corpus.pools;
      corpus.GetOrCreateObjectPool(t.id);
      if t.id !in before {
        PoolsFitCreate(before, types, t.id);
      }
    }

    /** `CreateValue` on the pool of `t`, which exists: the value is appended and every pool keeps fitting. */
    method Enter(t: Type, v: Value)
      requires Valid() && t in types && t.id in corpus.pools && Fits(v, t)
      modifies corpus
      ensures Valid() && corpus.pools == old(corpus.pools)[t.id := old(corpus.pools[t.id]) + [v]]
      ensures corpus.placeholderPool == old(corpus.placeholderPool) && corpus.testCases == old(corpus.testCases)
    {
      PoolsFitAppend(corpus.pools, types, callbacks, t, v);
      var _ := corpus.CreateValue(t.id, v);
    }

    /**
     * `GenerateNewBitsType`: a non-empty pool gives one of its values;
     * otherwise a value of `size` random bytes is created and entered.
     */
    method GenerateNewBitsType(t: Type) returns (r: Value)
      requires Valid() && t in types && t.BitsType?
      modifies corpus, rnd
      ensures Valid() && Fits(r, t) && |r.data| == t.size
      ensures Unchanged(old(corpus.pools), corpus.pools, {t.id})
      ensures old(|PoolOf(corpus.pools, t.id)|) >= 1 ==> corpus.pools == old(corpus.pools) && r in old(corpus.pools[t.id])
      ensures old(|PoolOf(corpus.pools, t.id)|) == 0 ==> t.id in corpus.pools && corpus.pools[t.id] == [r]
      ensures corpus.placeholderPool == old(corpus.placeholderPool) && corpus.testCases == old(corpus.testCases)
      decreases t, 0
    {
      PoolFor(t);
      var pool := corpus.pools[t.id];
      if |pool| > 0 {
        var i := rnd.Index(|pool|);
        r := pool[i];
        return;
      }
      var data := rnd.NextBuffer(t.size);
      r := BitsValue(data);
      Enter(t, r);
    }

    /** `GenerateNewPointerType`: a pointer to a value generated for the pointee type, entered into its pool. */
    method GenerateNewPointerType(t: Type) returns (r: Value)
      requires Valid() && t in types && t.PointerType?
      modifies corpus, rnd
      ensures Valid() && Fits(r, t)
      ensures Unchanged(old(corpus.pools), corpus.pools, Ids(t))
      ensures t.id in corpus.pools && corpus.pools[t.id] == old(PoolOf(corpus.pools, t.id)) + [r]
      ensures corpus.placeholderPool == old(corpus.placeholderPool) && corpus.testCases == old(corpus.testCases)
      decreases t, 0
    {
      PoolFor(t);
      assert t.pointee in Children(t);
      ChildIds(types, callbacks, t, t.pointee);
      IdsSelf(t);
      var pointee := GenerateValue(t.pointee);
      r := PointerValue(pointee);
      Enter(t, r);
    }

    /** `GenerateNewArrayType`: an array of `size` elements, each generated for the element type. */
    method GenerateNewArrayType(t: Type) returns (r: Value)
      requires Valid() && t in types && t.ArrayType?
      modifies corpus, rnd
      ensures Valid() && Fits(r, t) && |r.elements| == t.size
      ensures Unchanged(old(corpus.pools), corpus.pools, Ids(t))
      ensures t.id in corpus.pools && corpus.pools[t.id] == old(PoolOf(corpus.pools, t.id)) + [r]
      ensures corpus.placeholderPool == old(corpus.placeholderPool) && corpus.testCases == old(corpus.testCases)
      decreases t, 0
    {
      PoolFor(t);
      ghost var created := corpus.pools;
      assert t.element in Children(t);
      ChildIds(types, callbacks, t, t.element);
      IdsSelf(t);
      var elements: seq<Value> := [];
      for i := 0 to t.size
        invariant |elements| == i && EachFits(elements, t.element)
        invariant Valid() && Unchanged(created, corpus.pools, Ids(t) - {t.id})
        invariant corpus.placeholderPool == old(corpus.placeholderPool) && corpus.testCases == old(corpus.testCases)
      {
        ghost var before := corpus.pools;
        var e := GenerateValue(t.element);
        UnchangedStep(created, before, corpus.pools, Ids(t) - {t.id}, Ids(t.element));
        EachFitsAppend(elements, t.element, e);
        elements := elements + [e];
      }
      r := ArrayValue(t.size, elements);
      ArrayFits(t, elements);
      Enter(t, r);
    }

    /**
     * `GenerateNewStructType`: a constructor of the struct is drawn and an
     * argument generated for each of its parameters but the first, the
     * object being built.
     */
    method GenerateNewStructType(t: Type) returns (r: Value)
      requires Valid() && t in types && t.StructType?
      modifies corpus, rnd
      ensures Valid() && Fits(r, t)
      ensures exists c :: c in t.ctors && c.id == r.ctorId && |r.args| == |c.params| - 1
      ensures Unchanged(old(corpus.pools), corpus.pools, Ids(t))
      ensures t.id in corpus.pools && corpus.pools[t.id] == old(PoolOf(corpus.pools, t.id)) + [r]
      ensures corpus.placeholderPool == old(corpus.placeholderPool) && corpus.testCases == old(corpus.testCases)
      decreases t, 0
    {
      var k := rnd.Index(|t.ctors|);
      var c := t.ctors[k];
      PoolFor(t);
      ghost var created := corpus.pools;
      IdsSelf(t);
      forall j | 0 <= j < |c.params|
        ensures c.params[j] in types && c.params[j] < t && Ids(c.params[j]) <= Ids(t) - {t.id}
      {
        assert c.params[j] in c.params;
        assert c.params[j] in Children(t);
        ChildIds(types, callbacks, t, c.params[j]);
      }
      var args: seq<Value> := [];
      for i := 1 to |c.params|
        invariant |args| == i - 1
        invariant Valid() && Unchanged(created, corpus.pools, Ids(t) - {t.id})
        invariant corpus.placeholderPool == old(corpus.placeholderPool) && corpus.testCases == old(corpus.testCases)
      {
        ghost var before := corpus.pools;
        var a := GenerateValue(c.params[i]);
        UnchangedStep(created, before, corpus.pools, Ids(t) - {t.id}, Ids(c.params[i]));
        args := args + [a];
      }
      r := StructValue(c.id, args);
      assert c in t.ctors && c.id == r.ctorId && |c.params| >= 1 && |r.args| == |c.params| - 1;
      Enter(t, r);
    }

    /** `GenerateNewFunctionPointerType`: a pointer to one of the callback candidates of the signature. */
    method GenerateNewFunctionPointerType(t: Type) returns (r: Value)
      requires Valid() && t in types && t.FunctionPointerType?
      modifies corpus, rnd
      ensures Valid() && Fits(r, t)
      ensures exists j :: 0 <= j < |callbacks[t.signatureId]| && callbacks[t.signatureId][j] as int == r.functionId as int
      ensures Unchanged(old(corpus.pools), corpus.pools, {t.id})
      ensures t.id in corpus.pools && corpus.pools[t.id] == old(PoolOf(corpus.pools, t.id)) + [r]
      ensures corpus.placeholderPool == old(corpus.placeholderPool) && corpus.testCases == old(corpus.testCases)
      decreases t, 0
    {
      var candidates := callbacks[t.signatureId];
      var k := rnd.Index(|candidates|);
      var pointeeFunctionId := candidates[k];
      PoolFor(t);
      r := FunctionPointerValue(pointeeFunctionId);
      Enter(t, r);
    }

    /** `GenerateNewAggregateType`: one field value generated for each field type. */
    method GenerateNewAggregateType(t: Type) returns (r: Value)
      requires Valid() && t in types && t.AggregateType?
      modifies corpus, rnd
      ensures Valid() && Fits(r, t) && |r.fields| == |t.fields|
      ensures Unchanged(old(corpus.pools), corpus.pools, Ids(t))
      ensures t.id in corpus.pools && corpus.pools[t.id] == old(PoolOf(corpus.pools, t.id)) + [r]
      ensures corpus.placeholderPool == old(corpus.placeholderPool) && corpus.testCases == old(corpus.testCases)
      decreases t, 0
    {
      PoolFor(t);
      ghost var created := corpus.pools;
      IdsSelf(t);
      var fields: seq<Value> := [];
      for i := 0 to |t.fields|
        invariant |fields| == i && AllFit(fields, t.fields)
        invariant Valid() && Unchanged(created, corpus.pools, Ids(t) - {t.id})
        invariant corpus.placeholderPool == old(corpus.placeholderPool) && corpus.testCases == old(corpus.testCases)
      {
        var ft := t.fields[i];
        assert ft in Children(t);
        ChildIds(types, callbacks, t, ft);
        ghost var before := corpus.pools;
        var f := GenerateValue(ft);
        UnchangedStep(created, before, corpus.pools, Ids(t) - {t.id}, Ids(ft));
        AllFitAppend(fields, t.fields, f);
        fields := fields + [f];
      }
      r := AggregateValue(fields);
      AggregateFits(t, fields);
      Enter(t, r);
    }

    /**
     * `GenerateNewValue`: a new value of the type's kind. Only a bits type
     * with a non-empty pool gives a value already in the pool.
     */
    method GenerateNewValue(t: Type) returns (r: Value)
      requires Valid() && t in types
      modifies corpus, rnd
      ensures Valid() && Fits(r, t)
      ensures Unchanged(old(corpus.pools), corpus.pools, Ids(t))
      ensures t.BitsType? && old(|PoolOf(corpus.pools, t.id)|) >= 1 ==>
                corpus.pools == old(corpus.pools) && r in old(corpus.pools[t.id])
      ensures !(t.BitsType? && old(|PoolOf(corpus.pools, t.id)|) >= 1) ==>
                t.id in corpus.pools && corpus.pools[t.id] == old(PoolOf(corpus.pools, t.id)) + [r]
      ensures corpus.placeholderPool == old(corpus.placeholderPool) && corpus.testCases == old(corpus.testCases)
      decreases t, 1
    {
      IdsSelf(t);
      match t
      case BitsType(_, _) =>
        r := GenerateNewBitsType(t);
      case PointerType(_, _) =>
        r := GenerateNewPointerType(t);
      case FunctionPointerType(_, _) =>
        r := GenerateNewFunctionPointerType(t);
      case ArrayType(_, _, _) =>
        r := GenerateNewArrayType(t);
      case StructType(_, _) =>
        r := GenerateNewStructType(t);
      case AggregateType(_, _) =>
        r := GenerateNewAggregateType(t);
    }

    /**
     * `GenerateValue`: from an empty pool a new value; otherwise a new value
     * or one drawn from the pool. The value ends up in the type's pool.
     */
    method GenerateValue(t: Type) returns (r: Value)
      requires Valid() && t in types
      modifies corpus, rnd
      ensures Valid() && Fits(r, t)
      ensures Unchanged(old(corpus.pools), corpus.pools, Ids(t))
      ensures t.id in corpus.pools && r in corpus.pools[t.id]
      ensures old(|PoolOf(corpus.pools, t.id)|) == 0 ==> t.id in corpus.pools && corpus.pools[t.id] == [r]
      ensures r in old(PoolOf(corpus.pools, t.id)) || corpus.pools[t.id] == old(PoolOf(corpus.pools, t.id)) + [r]
      ensures corpus.placeholderPool == old(corpus.placeholderPool) && corpus.testCases == old(corpus.testCases)
      decreases t, 2
    {
      IdsSelf(t);
      PoolFor(t);
      var pool := corpus.pools[t.id];
      if |pool| == 0 {
        r := GenerateNewValue(t);
        return;
      }
      var createNew := rnd.WithProbability();
      if createNew {
        r := GenerateNewValue(t);
      } else {
        var k := rnd.Index(|pool|);
        r := pool[k];
      }
    }

    /**
     * `GenerateValueOrPlaceholder` for argument `argIndex` of call
     * `callIndex` of a test case whose callees are `calls`: a placeholder
     * for the result of an earlier call returning the argument's type, or a
     * new value of that type.
     */
    method GenerateValueOrPlaceholder(calls: seq<Api>, callIndex: nat, argIndex: nat) returns (r: Value)
      requires Valid() && ApisInTable(calls, types)
      requires callIndex < |calls| && argIndex < |calls[callIndex].params|
      modifies corpus, rnd
      ensures Valid() && corpus.testCases == old(corpus.testCases)
      ensures r.PlaceholderValue? ==>
                r.valueIndex < callIndex && calls[r.valueIndex].returnType == Some(calls[callIndex].params[argIndex])
      ensures r.PlaceholderValue? && old(corpus.placeholderPool).Some? ==>
                corpus.placeholderPool == Some(old(corpus.placeholderPool).value + [r])
      ensures r.PlaceholderValue? && old(corpus.placeholderPool).None? ==> corpus.placeholderPool == Some([r])
      ensures r.PlaceholderValue? ==> corpus.pools == old(corpus.pools)
      ensures !r.PlaceholderValue? ==>
                Fits(r, calls[callIndex].params[argIndex]) && corpus.placeholderPool == old(corpus.placeholderPool) &&
                Unchanged(old(corpus.pools), corpus.pools, Ids(calls[callIndex].params[argIndex]))
      ensures (forall k :: 0 <= k < callIndex ==> calls[k].returnType != Some(calls[callIndex].params[argIndex])) ==>
                !r.PlaceholderValue?
    {
      var ty := calls[callIndex].params[argIndex];
      var candidates: seq<nat> := [];
      var valueIndex := 0;
      for i := 0 to callIndex
        invariant valueIndex == i
        invariant candidates == PlaceholderCandidates(calls, ty, i)
      {
        if calls[i].returnType == Some(ty) {
          candidates := candidates + [valueIndex];
        }
        valueIndex := valueIndex + 1;
      }
      PlaceholderCandidatesSpec(calls, ty, callIndex);
      var createNew := |candidates| == 0;
      if !createNew {
        createNew := rnd.WithProbability();
      }
      if createNew {
        r := GenerateNewValue(ty);
        assert !r.PlaceholderValue?;
        return;
      }
      var k := rnd.Index(|candidates|);
      var placeholderIndex := candidates[k];
      assert placeholderIndex in candidates;
      corpus.GetPlaceholderObjectPool();
      r := PlaceholderValue(placeholderIndex);
      ghost var pool := corpus.placeholderPool.value;
      var _ := corpus.CreatePlaceholderValue(r);
      assert pool == [] ==> pool + [r] == [r];
    }

    /** `GenerateCall`: a call of an API of the store, with one generated argument per parameter. */
    method GenerateCall() returns (call: FunctionCall)
      requires Valid() && |funcs| >= 1
      modifies corpus, rnd
      ensures Valid()
      ensures exists k :: 0 <= k < |funcs| && CallFits(call, funcs[k])
      ensures corpus.placeholderPool == old(corpus.placeholderPool) && corpus.testCases == old(corpus.testCases)
    {
      var k := rnd.Index(|funcs|);
      var api := funcs[k];
      var args: seq<Value> := [];
      for i := 0 to |api.params|
        invariant |args| == i && AllFit(args, api.params)
        invariant Valid()
        invariant corpus.placeholderPool == old(corpus.placeholderPool) && corpus.testCases == old(corpus.testCases)
      {
        var a := GenerateValue(api.params[i]);
        AllFitAppend(args, api.params, a);
        args := args + [a];
      }
      call := FunctionCall(api.id, args);
      assert CallFits(call, funcs[k]);
    }

    /**
     * `GenerateTestCase`: a new test case of between 1 and `maxCalls`
     * generated calls is appended to the corpus, and its index returned.
     */
    method GenerateTestCase(maxCalls: int) returns (index: nat)
      requires Valid() && maxCalls >= 1 && |funcs| >= 1
      modifies corpus, rnd
      ensures Valid()
      ensures index == |old(corpus.testCases)| && |corpus.testCases| == index + 1
      ensures corpus.testCases[..index] == old(corpus.testCases)
      ensures 1 <= |corpus.testCases[index]| <= maxCalls
      ensures TestCaseFits(corpus.testCases[index], funcs)
      ensures corpus.placeholderPool == old(corpus.placeholderPool)
    {
      var callsCount := rnd.Next(1, maxCalls);
      ghost var total := callsCount;
      index := corpus.CreateTestCase();
      while callsCount > 0
        invariant 0 <= callsCount <= total
        invariant Valid()
        invariant |corpus.testCases| == index + 1 && corpus.testCases[..index] == old(corpus.testCases)
        invariant |corpus.testCases[index]| == total - callsCount
        invariant TestCaseFits(corpus.testCases[index], funcs)
        invariant corpus.placeholderPool == old(corpus.placeholderPool)
      {
        var call := GenerateCall();
        ghost var before := corpus.testCases;
        corpus.AddFunctionCall(index, call);
        assert corpus.testCases[..index] == before[..index];
        callsCount := callsCount - 1;
      }
    }
  }
}
