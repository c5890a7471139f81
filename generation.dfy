/**
 * What the two value generators (src/Fuzzer/TestCaseGenerator.cpp,
 * src/Fuzzer/ValueGenerator.cpp) rely on: the API functions of the store,
 * the table of types they generate values of, and the invariant that every
 * value in a pool has the shape of the pool's type.
 *
 * Types are finite trees here, so this model covers only types that are
 * not reached from their own parts. The source's type graph can be cyclic
 * (a list node's field, a copy constructor's `const S&`); what the two
 * generators do on such a type is modelled over a graph of type ids in
 * module CyclicGeneration. A type id names one type of the table, so the
 * pool of a type holds values of that type only.
 */
module Generation {
  import opened MachineInts
  import opened Results
  import opened NativeValues

  /** An API function as the generators see it: its id, its parameter types and its return type (none for `void`). */
  datatype Api = Api(id: u32, params: seq<Type>, returnType: Option<Type>)

  /** The types a type is built from. */
  function Children(t: Type): set<Type>
  {
    match t
    case BitsType(_, _) => {}
    case PointerType(_, pointee) => {pointee}
    case FunctionPointerType(_, _) => {}
    case ArrayType(_, _, element) => {element}
    case StructType(_, ctors) => set c, p | c in ctors && p in c.params :: p
    case AggregateType(_, fields) => set f | f in fields
  }

  /** The set holds the types its types are built from. */
  ghost predicate Closed(types: set<Type>)
  {
    forall u :: u in types ==> Children(u) <= types
  }

  /**
   * A table of types: it holds the types its types are built from, an id
   * names one type, every struct has a constructor and every constructor its
   * object parameter, and every function-pointer signature has a callback
   * candidate.
   */
  ghost predicate TypeTable(types: set<Type>, callbacks: map<u64, seq<u32>>)
  {
    Closed(types) &&
    (forall u, w :: u in types && w in types && u.id == w.id ==> u == w) &&
    (forall u :: u in types && u.StructType? ==> |u.ctors| >= 1 && forall c :: c in u.ctors ==> |c.params| >= 1) &&
    (forall u :: u in types && u.FunctionPointerType? ==> u.signatureId in callbacks && |callbacks[u.signatureId]| >= 1)
  }

  /** Every value in the pool of a type of the table has the shape of that type. */
  ghost predicate PoolsFit(pools: map<u64, seq<Value>>, types: set<Type>)
  {
    forall u, i :: u in types && u.id in pools && 0 <= i < |pools[u.id]| ==> Fits(pools[u.id][i], u)
  }

  /** Appending a value of a type to that type's pool keeps every pool fitting. */
  lemma PoolsFitAppend(pools: map<u64, seq<Value>>, types: set<Type>, callbacks: map<u64, seq<u32>>, u: Type, v: Value)
    requires PoolsFit(pools, types) && TypeTable(types, callbacks)
    requires u in types && u.id in pools && Fits(v, u)
    ensures PoolsFit(pools[u.id := pools[u.id] + [v]], types)
  {
  }

  /** Creating an empty pool keeps every pool fitting. */
  lemma PoolsFitCreate(pools: map<u64, seq<Value>>, types: set<Type>, id: u64)
    requires PoolsFit(pools, types)
    ensures PoolsFit(pools[id := []], types)
  {
  }

  /** The parameter types of a struct's constructors are in the table. */
  lemma CtorParamsInTable(types: set<Type>, callbacks: map<u64, seq<u32>>, t: Type, c: Constructor, i: nat)
    requires TypeTable(types, callbacks) && t in types && t.StructType? && c in t.ctors && i < |c.params|
    ensures c.params[i] in types && c.params[i] < t
  {
    assert c.params[i] in c.params;
    assert c.params[i] in Children(t);
  }

  /** The field types of an aggregate are in the table. */
  lemma FieldsInTable(types: set<Type>, callbacks: map<u64, seq<u32>>, t: Type, i: nat)
    requires TypeTable(types, callbacks) && t in types && t.AggregateType? && i < |t.fields|
    ensures t.fields[i] in types && t.fields[i] < t
  {
    assert t.fields[i] in Children(t);
  }

  /** The types of the tree of `t`: `t` and, transitively, every type it is built from. */
  ghost function Reach(t: Type): set<Type>
    decreases t
  {
    match t
    case BitsType(_, _) => {t}
    case PointerType(_, pointee) => {t} + Reach(pointee)
    case FunctionPointerType(_, _) => {t}
    case ArrayType(_, _, element) => {t} + Reach(element)
    case StructType(_, ctors) => {t} + (set c, p, d | c in ctors && p in c.params && d in Reach(p) :: d)
    case AggregateType(_, fields) => {t} + (set f, d | f in fields && d in Reach(f) :: d)
  }

  /** The ids of the types of the tree of `t`: the pools that generating a value of `t` may touch. */
  ghost function Ids(t: Type): set<u64>
  {
    set d | d in Reach(t) :: d.id
  }

  /** The pool stored under `id`, or an empty one when there is none. */
  ghost function PoolOf(pools: map<u64, seq<Value>>, id: u64): seq<Value>
  {
    if id in pools then pools[id] else []
  }

  /** The pools outside `ids` are the same, present or absent, before and after. */
  ghost predicate Unchanged(before: map<u64, seq<Value>>, after: map<u64, seq<Value>>, ids: set<u64>)
  {
    forall id :: id !in ids ==> (id in before <==> id in after) && (id in before ==> before[id] == after[id])
  }

  /** No pool is removed and no pool loses values. */
  ghost predicate Grows(before: map<u64, seq<Value>>, after: map<u64, seq<Value>>)
  {
    forall id :: id in before ==> id in after && |before[id]| <= |after[id]|
  }

  /** Two steps that each keep the pools outside a set keep them across both. */
  lemma UnchangedStep(a: map<u64, seq<Value>>, b: map<u64, seq<Value>>, c: map<u64, seq<Value>>, ids: set<u64>, step: set<u64>)
    requires Unchanged(a, b, ids) && Unchanged(b, c, step) && step <= ids
    ensures Unchanged(a, c, ids)
  {
  }

  /** A type a type is built from is strictly smaller, and its tree lies in the tree of the type. */
  lemma ChildReach(t: Type, u: Type)
    requires u in Children(t)
    ensures u < t && Reach(u) <= Reach(t)
  {
    match t
    case StructType(_, ctors) =>
      var c, p :| c in ctors && p in c.params && p == u;
      forall d | d in Reach(u)
        ensures d in Reach(t)
      {
        assert c in ctors && p in c.params && d in Reach(p);
      }
    case AggregateType(_, fields) =>
      forall d | d in Reach(u)
        ensures d in Reach(t)
      {
        assert u in fields && d in Reach(u);
      }
    case _ =>
  }

  /** A type of the tree of a struct, other than the struct, lies in the tree of a constructor parameter. */
  lemma StructReach(t: Type, d: Type) returns (c: Constructor, p: Type)
    requires t.StructType? && d in Reach(t) && d != t
    ensures c in t.ctors && p in c.params && d in Reach(p)
  {
    c, p :| c in t.ctors && p in c.params && d in Reach(p);
  }

  /** A type of the tree of an aggregate, other than the aggregate, lies in the tree of a field. */
  lemma AggregateReach(t: Type, d: Type) returns (f: Type)
    requires t.AggregateType? && d in Reach(t) && d != t
    ensures f in t.fields && d in Reach(f)
  {
    f :| f in t.fields && d in Reach(f);
  }

  /** Every type of the tree of `t` is `t` or smaller than `t`. */
  lemma {:induction false} ReachBelow(t: Type, d: Type)
    requires d in Reach(t)
    ensures d == t || d < t
    decreases t
  {
    if d != t {
      match t
      case PointerType(_, pointee) => ReachBelow(pointee, d);
      case ArrayType(_, _, element) => ReachBelow(element, d);
      case StructType(_, _) =>
        var c, p := StructReach(t, d);
        ReachBelow(p, d);
      case AggregateType(_, _) =>
        var f := AggregateReach(t, d);
        ReachBelow(f, d);
    }
  }

  /** The tree of a type of a closed set lies in the set. */
  lemma {:induction false} ReachInTable(types: set<Type>, t: Type, d: Type)
    requires Closed(types) && t in types && d in Reach(t)
    ensures d in types
    decreases t
  {
    if d != t {
      match t
      case PointerType(_, pointee) =>
        assert pointee in Children(t);
        ReachInTable(types, pointee, d);
      case ArrayType(_, _, element) =>
        assert element in Children(t);
        ReachInTable(types, element, d);
      case StructType(_, _) =>
        var c, p := StructReach(t, d);
        assert p in Children(t);
        ReachInTable(types, p, d);
      case AggregateType(_, _) =>
        var f := AggregateReach(t, d);
        assert f in Children(t);
        ReachInTable(types, f, d);
    }
  }

  /**
   * Generating a value of a type a type of the table is built from touches
   * pools of the parent's tree only, and never the parent's own pool.
   */
  lemma ChildIds(types: set<Type>, callbacks: map<u64, seq<u32>>, t: Type, u: Type)
    requires TypeTable(types, callbacks) && t in types && u in Children(t)
    ensures u in types && u < t
    ensures Ids(u) <= Ids(t) - {t.id}
  {
    ChildReach(t, u);
    forall d | d in Reach(u)
      ensures d.id != t.id
    {
      ReachBelow(u, d);
      ReachInTable(types, u, d);
    }
  }

  /** A type's own pool is among the pools of its tree. */
  lemma IdsSelf(t: Type)
    ensures t.id in Ids(t)
  {
    assert t in Reach(t);
  }

  /** Each value has the shape of the type at the same position. */
  ghost predicate AllFit(vs: seq<Value>, ts: seq<Type>)
  {
    |vs| <= |ts| && forall i :: 0 <= i < |vs| ==> Fits(vs[i], ts[i])
  }

  /** A value of the shape of the next type extends the values that fit. */
  lemma AllFitAppend(vs: seq<Value>, ts: seq<Type>, v: Value)
    requires AllFit(vs, ts) && |vs| < |ts| && Fits(v, ts[|vs|])
    ensures AllFit(vs + [v], ts)
  {
  }

  /** Each value has the shape of `t`. */
  ghost predicate EachFits(vs: seq<Value>, t: Type)
  {
    forall i :: 0 <= i < |vs| ==> Fits(vs[i], t)
  }

  /** A value of the shape of `t` extends values of that shape. */
  lemma EachFitsAppend(vs: seq<Value>, t: Type, v: Value)
    requires EachFits(vs, t) && Fits(v, t)
    ensures EachFits(vs + [v], t)
  {
  }

  /** An array value of `size` elements of the element type's shape has the array's shape. */
  lemma ArrayFits(t: Type, elements: seq<Value>)
    requires t.ArrayType? && |elements| == t.size && EachFits(elements, t.element)
    ensures Fits(ArrayValue(t.size, elements), t)
  {
  }

  /** An aggregate value whose fields have the shapes of the field types has the aggregate's shape. */
  lemma AggregateFits(t: Type, fields: seq<Value>)
    requires t.AggregateType? && |fields| == |t.fields| && AllFit(fields, t.fields)
    ensures Fits(AggregateValue(fields), t)
  {
  }

  /** The callee's parameter types are in the table. */
  ghost predicate ApisInTable(funcs: seq<Api>, types: set<Type>)
  {
    forall k, i :: 0 <= k < |funcs| && 0 <= i < |funcs[k].params| ==> funcs[k].params[i] in types
  }

  /** The call has one argument per parameter of the API `api`, each of that parameter's shape. */
  ghost predicate CallFits(call: FunctionCall, api: Api)
  {
    call.funcId == api.id && |call.args| == |api.params| && AllFit(call.args, api.params)
  }

  /** Each call of the test case fits one of the store's APIs. */
  ghost predicate TestCaseFits(tc: TestCase, funcs: seq<Api>)
  {
    forall j :: 0 <= j < |tc| ==> exists k :: 0 <= k < |funcs| && CallFits(tc[j], funcs[k])
  }
}
