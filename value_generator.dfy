/**
 * The earlier value generator (src/Fuzzer/ValueGenerator.cpp).
 *
 * It differs from the test-case generator in four ways: it never creates a
 * bits value, but draws one from the type's pool, and gives none when the
 * type has no pool; it enters a compound value into its pool after
 * generating its parts; it chooses between reuse and creation with an
 * even draw; and it has no case for aggregates, nor for function pointers,
 * which it treats as pointers to a function type it cannot generate.
 */
module ValueGeneration {
  import opened MachineInts
  import opened Results
  import opened NativeValues
  import opened Corpora
  import opened Randomness
  import opened Generation

  /** Values of `t` can be generated: its tree has no aggregate and no function pointer, which reach the unreachable case. */
  ghost predicate Generable(t: Type)
  {
    forall d :: d in Reach(t) ==> !d.FunctionPointerType? && !d.AggregateType?
  }

  /** Every bits type of the tree of `t` has a non-empty pool to draw from. */
  ghost predicate Seeded(pools: map<u64, seq<Value>>, t: Type)
  {
    forall d :: d in Reach(t) && d.BitsType? ==> d.id in pools && |pools[d.id]| >= 1
  }

  /** Pools that only grow stay seeded. */
  lemma SeededGrows(before: map<u64, seq<Value>>, after: map<u64, seq<Value>>, t: Type)
    requires Seeded(before, t) && Grows(before, after)
    ensures Seeded(after, t)
  {
  }

  /** The types a generable, seeded type is built from are generable and seeded. */
  lemma ChildReady(pools: map<u64, seq<Value>>, t: Type, u: Type)
    requires Generable(t) && Seeded(pools, t) && u in Children(t)
    ensures Generable(u) && Seeded(pools, u)
  {
    ChildReach(t, u);
  }

  class ValueGenerator {
    const corpus: Corpus
    const rnd: Random
    /** The types values are generated for. */
    ghost const types: set<Type>
    /** The callback candidates of each function signature, as the store gives them. */
    const callbacks: map<u64, seq<u32>>
    /** The API functions of the store. */
    const funcs: seq<Api>

    /** The types form a table, the APIs use its types, and every pool holds values of its type. */
    ghost predicate Valid()
      reads this, corpus
    {
      TypeTable(types, callbacks) && ApisInTable(funcs, types) && PoolsFit(corpus.pools, types)
    }

    /** A value of `t` can be generated from the present pools. */
    ghost predicate Ready(t: Type)
      reads this, corpus
    {
      t in types && Generable(t) && Seeded(corpus.pools, t)
    }

    constructor (corpus: Corpus, rnd: Random, ghost types: set<Type>, callbacks: map<u64, seq<u32>>, funcs: seq<Api>)
      requires TypeTable(types, callbacks) && ApisInTable(funcs, types) && PoolsFit(corpus.pools, types)
      ensures this.corpus == corpus && this.rnd == rnd && this.types == types
      ensures this.callbacks == callbacks && this.funcs == funcs
      ensures Valid()
    {
      this.corpus := corpus;
      this.rnd := rnd;
      this.types := types;
      this.callbacks := callbacks;
      this.funcs := funcs;
    }

    /** `GetOrCreateObjectPool` on the corpus keeps every pool fitting. */
    method PoolFor(t: Type)
      requires Valid()
      modifies corpus
      ensures Valid() && t.id in corpus.pools && corpus.pools[t.id] == old(PoolOf(corpus.pools, t.id))
      ensures Unchanged(old(corpus.pools), corpus.pools, {t.id}) && Grows(old(corpus.pools), corpus.pools)
      ensures corpus.placeholderPool == old(corpus.placeholderPool) && corpus.testCases == old(corpus.testCases)
    {
      ghost var before := corpus.pools;
      corpus.GetOrCreateObjectPool(t.id);
      if t.id !in before {
        PoolsFitCreate(before, types, t.id);
      }
    }

    /** `CreateValue` on the pool of `t`, which exists: the value is appended and every pool keeps fitting. */
    method Enter(t: Type, v: Value)
      requires Valid() && t in types && t.id in corpus.pools && Fits(v, t)
      modifies corpus
      ensures Valid() && corpus.pools == old(corpus.pools)[t.id := old(corpus.pools[t.id]) + [v]]
      ensures Grows(old(corpus.pools), corpus.pools)
      ensures corpus.placeholderPool == old(corpus.placeholderPool) && corpus.testCases == old(corpus.testCases)
    {
      PoolsFitAppend(corpus.pools, types, callbacks, t, v);
      var _ := corpus.CreateValue(t.id, v);
    }

    /**
     * `GenerateNewBitsType`: none when the type has no pool, and otherwise
     * a value drawn from the pool, which must not be empty. No pool changes.
     */
    method GenerateNewBitsType(t: Type) returns (r: Option<Value>)
      requires Valid() && t in types && t.BitsType?
      requires t.id in corpus.pools ==> |corpus.pools[t.id]| >= 1
      modifies rnd
      ensures r.None? <==> t.id !in corpus.pools
      ensures r.Some? ==> Fits(r.value, t) && r.value in corpus.pools[t.id]
    {
      var pool := corpus.GetObjectPool(t.id);
      if pool.None? {
        return None;
      }
      var i := rnd.Index(|pool.value|);
      r := Some(pool.value[i]);
    }

    /** `GenerateNewPointerType`: a pointer to a value generated for the pointee type, entered into its pool. */
    method GenerateNewPointerType(t: Type) returns (r: Value)
      requires Valid() && Ready(t) && t.PointerType?
      modifies corpus, rnd
      ensures Valid() && Fits(r, t)
      ensures Unchanged(old(corpus.pools), corpus.pools, Ids(t)) && Grows(old(corpus.pools), corpus.pools)
      ensures t.id in corpus.pools && corpus.pools[t.id] == old(PoolOf(corpus.pools, t.id)) + [r]
      ensures corpus.placeholderPool == old(corpus.placeholderPool) && corpus.testCases == old(corpus.testCases)
      decreases t, 0
    {
      PoolFor(t);
      assert t.pointee in Children(t);
      ChildIds(types, callbacks, t, t.pointee);
      ChildReady(old(corpus.pools), t, t.pointee);
      SeededGrows(old(corpus.pools), corpus.pools, t.pointee);
      IdsSelf(t);
      var pointee := GenerateValue(t.pointee);
      r := PointerValue(pointee);
      Enter(t, r);
    }

    /** `GenerateNewArrayType`: `size` elements generated for the element type, then the array entered into its pool. */
    method GenerateNewArrayType(t: Type) returns (r: Value)
      requires Valid() && Ready(t) && t.ArrayType?
      modifies corpus, rnd
      ensures Valid() && Fits(r, t) && |r.elements| == t.size
      ensures Unchanged(old(corpus.pools), corpus.pools, Ids(t)) && Grows(old(corpus.pools), corpus.pools)
      ensures t.id in corpus.pools && corpus.pools[t.id] == old(PoolOf(corpus.pools, t.id)) + [r]
      ensures corpus.placeholderPool == old(corpus.placeholderPool) && corpus.testCases == old(corpus.testCases)
      decreases t, 0
    {
      assert t.element in Children(t);
      ChildIds(types, callbacks, t, t.element);
      ChildReady(corpus.pools, t, t.element);
      IdsSelf(t);
      var elements: seq<Value> := [];
      for i := 0 to t.size
        invariant |elements| == i && EachFits(elements, t.element)
        invariant Valid() && Unchanged(old(corpus.pools), corpus.pools, Ids(t) - {t.id})
        invariant Grows(old(corpus.pools), corpus.pools) && Seeded(corpus.pools, t.element)
        invariant corpus.placeholderPool == old(corpus.placeholderPool) && corpus.testCases == old(corpus.testCases)
      {
        ghost var before := corpus.pools;
        var e := GenerateValue(t.element);
        UnchangedStep(old(corpus.pools), before, corpus.pools, Ids(t) - {t.id}, Ids(t.element));
        SeededGrows(before, corpus.pools, t.element);
        EachFitsAppend(elements, t.element, e);
        elements := elements + [e];
      }
      PoolFor(t);
      r := ArrayValue(t.size, elements);
      ArrayFits(t, elements);
      Enter(t, r);
    }

    /**
     * `GenerateNewStructType`: a constructor is drawn and an argument
     * generated for each of its parameters but the first, the object being
     * built; then the struct is entered into its pool.
     */
    method GenerateNewStructType(t: Type) returns (r: Value)
      requires Valid() && Ready(t) && t.StructType?
      modifies corpus, rnd
      ensures Valid() && Fits(r, t)
      ensures exists c :: c in t.ctors && c.id == r.ctorId && |r.args| == |c.params| - 1
      ensures Unchanged(old(corpus.pools), corpus.pools, Ids(t)) && Grows(old(corpus.pools), corpus.pools)
      ensures t.id in corpus.pools && corpus.pools[t.id] == old(PoolOf(corpus.pools, t.id)) + [r]
      ensures corpus.placeholderPool == old(corpus.placeholderPool) && corpus.testCases == old(corpus.testCases)
      decreases t, 0
    {
      var k := rnd.Index(|t.ctors|);
      var c := t.ctors[k];
      IdsSelf(t);
      forall j | 0 <= j < |c.params|
        ensures c.params[j] in types && c.params[j] < t && Ids(c.params[j]) <= Ids(t) - {t.id}
        ensures Generable(c.params[j]) && Seeded(corpus.pools, c.params[j])
      {
        assert c.params[j] in c.params;
        assert c.params[j] in Children(t);
        ChildIds(types, callbacks, t, c.params[j]);
        ChildReady(corpus.pools, t, c.params[j]);
      }
      ghost var start := corpus.pools;
      var args: seq<Value> := [];
      for i := 1 to |c.params|
        invariant |args| == i - 1
        invariant Valid() && Unchanged(start, corpus.pools, Ids(t) - {t.id}) && Grows(start, corpus.pools)
        invariant corpus.placeholderPool == old(corpus.placeholderPool) && corpus.testCases == old(corpus.testCases)
      {
        ghost var before := corpus.pools;
        SeededGrows(start, before, c.params[i]);
        var a := GenerateValue(c.params[i]);
        UnchangedStep(start, before, corpus.pools, Ids(t) - {t.id}, Ids(c.params[i]));
        args := args + [a];
      }
      PoolFor(t);
      r := StructValue(c.id, args);
      assert c in t.ctors && c.id == r.ctorId && |c.params| >= 1 && |r.args| == |c.params| - 1;
      Enter(t, r);
    }

    /** `GenerateNewFunctionPointerType`: a pointer to one of the callback candidates of the signature. */
    method GenerateNewFunctionPointerType(t: Type) returns (r: Value)
      requires Valid() && t in types && t.FunctionPointerType?
      modifies corpus, rnd
      ensures Valid() && Fits(r, t)
      ensures exists j :: 0 <= j < |callbacks[t.signatureId]| && callbacks[t.signatureId][j] as int == r.functionId as int
      ensures Unchanged(old(corpus.pools), corpus.pools, {t.id}) && Grows(old(corpus.pools), corpus.pools)
      ensures t.id in corpus.pools && corpus.pools[t.id] == old(PoolOf(corpus.pools, t.id)) + [r]
      ensures corpus.placeholderPool == old(corpus.placeholderPool) && corpus.testCases == old(corpus.testCases)
    {
      var candidates := callbacks[t.signatureId];
      var k := rnd.Index(|candidates|);
      var pointeeFunctionId := candidates[k];
      PoolFor(t);
      r := FunctionPointerValue(pointeeFunctionId);
      Enter(t, r);
    }

    /**
     * `GenerateNewValue`: a value of the type's kind. A bits value comes from
     * the type's pool; any other value is new and appended to its pool.
     */
    method GenerateNewValue(t: Type) returns (r: Value)
      requires Valid() && Ready(t) && t.id in corpus.pools
      modifies corpus, rnd
      ensures Valid() && Fits(r, t)
      ensures Unchanged(old(corpus.pools), corpus.pools, Ids(t)) && Grows(old(corpus.pools), corpus.pools)
      ensures t.BitsType? ==> corpus.pools == old(corpus.pools) && r in corpus.pools[t.id]
      ensures !t.BitsType? ==> t.id in corpus.pools && corpus.pools[t.id] == old(corpus.pools[t.id]) + [r]
      ensures corpus.placeholderPool == old(corpus.placeholderPool) && corpus.testCases == old(corpus.testCases)
      decreases t, 1
    {
      IdsSelf(t);
      assert t in Reach(t);
      match t
      case BitsType(_, _) =>
        var o := GenerateNewBitsType(t);
        r := o.value;
      case PointerType(_, _) =>
        r := GenerateNewPointerType(t);
      case ArrayType(_, _, _) =>
        r := GenerateNewArrayType(t);
      case StructType(_, _) =>
        r := GenerateNewStructType(t);
      case FunctionPointerType(_, _) =>
        assert false;
      case AggregateType(_, _) =>
        assert false;
    }

    /**
     * `GenerateValue`: from an empty pool a new value; otherwise an even
     * draw between a value of the pool and a new one. The value ends up in
     * the type's pool.
     */
    method GenerateValue(t: Type) returns (r: Value)
      requires Valid() && Ready(t)
      modifies corpus, rnd
      ensures Valid() && Fits(r, t)
      ensures Unchanged(old(corpus.pools), corpus.pools, Ids(t)) && Grows(old(corpus.pools), corpus.pools)
      ensures t.id in corpus.pools && r in corpus.pools[t.id]
      ensures old(|PoolOf(corpus.pools, t.id)|) == 0 ==> corpus.pools[t.id] == [r]
      ensures r in old(PoolOf(corpus.pools, t.id)) || corpus.pools[t.id] == old(PoolOf(corpus.pools, t.id)) + [r]
      ensures corpus.placeholderPool == old(corpus.placeholderPool) && corpus.testCases == old(corpus.testCases)
      decreases t, 2
    {
      IdsSelf(t);
      PoolFor(t);
      SeededGrows(old(corpus.pools), corpus.pools, t);
      var pool := corpus.pools[t.id];
      if |pool| == 0 {
        r := GenerateNewValue(t);
        return;
      }
      var strategy := rnd.Next(0, 1);
      if strategy == 0 {
        var k := rnd.Index(|pool|);
        r := pool[k];
      } else {
        r := GenerateNewValue(t);
      }
    }

    /** `GenerateCall`: a call of an API of the store, with one generated argument per parameter. */
    method GenerateCall() returns (call: FunctionCall)
      requires Valid() && |funcs| >= 1
      requires forall k, i :: 0 <= k < |funcs| && 0 <= i < |funcs[k].params| ==> Ready(funcs[k].params[i])
      modifies corpus, rnd
      ensures Valid() && Grows(old(corpus.pools), corpus.pools)
      ensures exists k :: 0 <= k < |funcs| && CallFits(call, funcs[k])
      ensures corpus.placeholderPool == old(corpus.placeholderPool) && corpus.testCases == old(corpus.testCases)
    {
      var k := rnd.Index(|funcs|);
      var api := funcs[k];
      var args: seq<Value> := [];
      for i := 0 to |api.params|
        invariant |args| == i && AllFit(args, api.params)
        invariant Valid() && Grows(old(corpus.pools), corpus.pools)
        invariant corpus.placeholderPool == old(corpus.placeholderPool) && corpus.testCases == old(corpus.testCases)
      {
        assert old(Ready(api.params[i]));
        SeededGrows(old(corpus.pools), corpus.pools, api.params[i]);
        var a := GenerateValue(api.params[i]);
        AllFitAppend(args, api.params, a);
        args := args + [a];
      }
      call := FunctionCall(api.id, args);
      assert CallFits(call, funcs[k]);
    }
  }
}
