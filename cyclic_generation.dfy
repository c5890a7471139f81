/**
 * Generation over a type graph in which a type may be reached from its own
 * parts: a list node whose constructor takes a pointer to a node, or a
 * struct with a copy constructor taking `const S&`. The generators of
 * src/Fuzzer/TestCaseGenerator.cpp and src/Fuzzer/ValueGenerator.cpp differ
 * in when a compound value enters its type's pool: the test-case generator
 * pools it before generating its parts, the value generator after.
 *
 * Types are named by their ids; which type ids have a non-empty pool is the
 * state the recursion depends on. Each generation is followed for at most
 * `fuel` nested `GenerateValue` calls, and `None` is the answer when it has
 * not returned by then. The draws are the ones that end the recursion
 * soonest: a value is taken from a non-empty pool, and a struct is built
 * with the constructor `pick` names. A value's contents are not followed:
 * only which pools are non-empty.
 */
module CyclicGeneration {
  import opened Results
  import opened SetCounting

  /**
   * A type: bits, a pointer to a type, an array of `size` elements, a
   * struct with the parameter types of each constructor (the `this`
   * parameter left out), or an aggregate with its field types.
   */
  datatype TypeNode =
    | BitsNode
    | PointerNode(pointee: nat)
    | ArrayNode(size: nat, element: nat)
    | StructNode(ctors: seq<seq<nat>>)
    | AggregateNode(fields: seq<nat>)

  /** The types by id. */
  type TypeGraph = map<nat, TypeNode>

  /** The type ids a type's values are built from. */
  function PartsOf(n: TypeNode): set<nat>
  {
    match n
    case BitsNode => {}
    case PointerNode(p) => {p}
    case ArrayNode(_, e) => {e}
    case StructNode(ctors) => set i, j | 0 <= i < |ctors| && 0 <= j < |ctors[i]| :: ctors[i][j]
    case AggregateNode(fields) => set j | 0 <= j < |fields| :: fields[j]
  }

  /** Every part is a type of the graph, and every struct has a constructor to select. */
  ghost predicate WellFormed(g: TypeGraph)
  {
    forall t :: t in g ==> PartsOf(g[t]) <= g.Keys && (g[t].StructNode? ==> g[t].ctors != [])
  }

  /** The constructor draw names a constructor of every struct. */
  ghost predicate Picks(g: TypeGraph, pick: nat -> nat)
  {
    forall t :: t in g && g[t].StructNode? ==> pick(t) < |g[t].ctors|
  }

  /** `n` copies of the element type: the parts of an array value. */
  function Copies(n: nat, e: nat): (r: seq<nat>)
    ensures |r| == n && forall j :: 0 <= j < n ==> r[j] == e
  {
    seq(n, _ => e)
  }

  /**
   * The parts a new value of the type is built from, in the order they are
   * generated: the pointee, each array element, the parameters of the
   * constructor at `c`, or the fields.
   */
  function PartList(n: TypeNode, c: nat): (r: seq<nat>)
    ensures forall j :: 0 <= j < |r| ==> r[j] in PartsOf(n)
  {
    match n
    case BitsNode => []
    case PointerNode(p) => [p]
    case ArrayNode(size, e) => Copies(size, e)
    case StructNode(ctors) => if c < |ctors| then ctors[c] else []
    case AggregateNode(fields) => fields
  }

  /** The parts of a type of a well-formed graph are types of the graph. */
  lemma PartListInGraph(g: TypeGraph, t: nat, c: nat)
    requires WellFormed(g) && t in g
    ensures forall j :: 0 <= j < |PartList(g[t], c)| ==> PartList(g[t], c)[j] in g
  {
  }

  // ---------------------------------------------------------------------
  // The value generator: parts first
  // ---------------------------------------------------------------------

  /**
   * `ValueGenerator::GenerateValue(t)` with the pools of `pooled` non-empty:
   * the pooled set when it returns, or `None`. A type with a value is drawn
   * from. A pointer, array or struct generates its parts with the pools as
   * they are and enters its own value after them. `None` also stands for the
   * two ends that are not a return: an aggregate reaches `CAF_UNREACHABLE`,
   * and a bits type without a value reaches `_rnd.Select` on the empty pool
   * `GenerateValue` has just created (ValueGenerator.cpp:95, 26), a draw from
   * an empty vector, which is undefined.
   */
  function ChildrenFirst(g: TypeGraph, pick: nat -> nat, t: nat, pooled: set<nat>, fuel: nat): (r: Option<set<nat>>)
    decreases fuel, 1
  {
    if fuel == 0 || t !in g then None
    else if t in pooled then Some(pooled)
    else if g[t].BitsNode? || g[t].AggregateNode? || (g[t].StructNode? && pick(t) >= |g[t].ctors|) then None
    else Enter(ChildrenFirstEach(g, pick, PartList(g[t], pick(t)), pooled, fuel - 1), t)
  }

  /** The parts generated one after the other, each seeing the values the ones before it pooled. */
  function ChildrenFirstEach(g: TypeGraph, pick: nat -> nat, ts: seq<nat>, pooled: set<nat>, fuel: nat): (r: Option<set<nat>>)
    decreases fuel, 2, |ts|
  {
    if ts == [] then Some(pooled)
    else match ChildrenFirst(g, pick, ts[0], pooled, fuel)
      case None => None
      case Some(after) => ChildrenFirstEach(g, pick, ts[1..], after, fuel)
  }

  /** The value of `t` entered into its pool once its parts are done. */
  function Enter(r: Option<set<nat>>, t: nat): (e: Option<set<nat>>)
    ensures e.Some? <==> r.Some?
    ensures e.Some? ==> t in e.value
  {
    match r
    case None => None
    case Some(s) => Some(s + {t})
  }

  /** A list node: `Node(Node* next)` is the only constructor of type 0, and type 1 is `Node*`. */
  function ListNode(): (g: TypeGraph)
    ensures WellFormed(g)
  {
    var g := map[0 := StructNode([[1]]), 1 := PointerNode(0)];
    assert forall x :: x in PartsOf(g[0]) ==> x == 1;
    g
  }

  /**
   * From an empty corpus, the value generator never returns from a list
   * node: the node's parameter is a `Node*`, whose pointee is a node again,
   * and neither pool receives a value before the nested call returns.
   */
  lemma {:induction false} ChildrenFirstNeverFinishes(pick: nat -> nat, fuel: nat)
    requires Picks(ListNode(), pick)
    ensures ChildrenFirst(ListNode(), pick, 0, {}, fuel) == None
    ensures ChildrenFirst(ListNode(), pick, 1, {}, fuel) == None
  {
    var g := ListNode();
    if fuel > 0 {
      assert pick(0) == 0 by { assert 0 in g && g[0].StructNode?; }
      ChildrenFirstNeverFinishes(pick, fuel - 1);
      assert PartList(g[0], pick(0)) == [1] && PartList(g[1], pick(1)) == [0];
      assert ChildrenFirstEach(g, pick, [1], {}, fuel - 1) == None;
      assert ChildrenFirstEach(g, pick, [0], {}, fuel - 1) == None;
    }
  }

  // ---------------------------------------------------------------------
  // The test-case generator: pool first
  // ---------------------------------------------------------------------

  /**
   * `TestCaseGenerator::GenerateValue(t)` with the pools of `pooled`
   * non-empty: the pooled set when it returns, or `None`. A type with a
   * value is drawn from (the draw taken with probability 0.9); otherwise
   * the new value enters its pool first, and then its parts are generated.
   */
  function PoolFirst(g: TypeGraph, pick: nat -> nat, t: nat, pooled: set<nat>, fuel: nat): (r: Option<set<nat>>)
    decreases fuel, 1
  {
    if fuel == 0 || t !in g then None
    else if t in pooled then Some(pooled)
    else if g[t].BitsNode? then Some(pooled + {t})
    else if g[t].StructNode? && pick(t) >= |g[t].ctors| then None
    else PoolFirstEach(g, pick, PartList(g[t], pick(t)), pooled + {t}, fuel - 1)
  }

  /** The parts generated one after the other, each seeing the values the ones before it pooled. */
  function PoolFirstEach(g: TypeGraph, pick: nat -> nat, ts: seq<nat>, pooled: set<nat>, fuel: nat): (r: Option<set<nat>>)
    decreases fuel, 2, |ts|
  {
    if ts == [] then Some(pooled)
    else match PoolFirst(g, pick, ts[0], pooled, fuel)
      case None => None
      case Some(after) => PoolFirstEach(g, pick, ts[1..], after, fuel)
  }

  /** The pooled set after a finished generation: it has grown, stays within the graph, and holds `t`. */
  ghost predicate Finished(g: TypeGraph, r: Option<set<nat>>, pooled: set<nat>)
  {
    r.Some? && pooled <= r.value <= g.Keys
  }

  /**
   * With the value pooled before its parts, every generation returns within
   * one nested call more than there are types without a value: each nested
   * call that does not draw enters a type that had no value before.
   */
  lemma {:induction false} PoolFirstFinishes(g: TypeGraph, pick: nat -> nat, t: nat, pooled: set<nat>, fuel: nat)
    requires WellFormed(g) && Picks(g, pick) && t in g && pooled <= g.Keys
    requires fuel > |g.Keys - pooled|
    ensures Finished(g, PoolFirst(g, pick, t, pooled, fuel), pooled)
    ensures t in PoolFirst(g, pick, t, pooled, fuel).value
    decreases fuel, 1
  {
    if t !in pooled && !g[t].BitsNode? {
      var next := pooled + {t};
      FewerLeft(g.Keys, pooled, next, t);
      PartListInGraph(g, t, pick(t));
      PoolFirstEachFinishes(g, pick, PartList(g[t], pick(t)), next, fuel - 1);
    }
  }

  /** The same for a sequence of parts: each sees at least the types the ones before it pooled. */
  lemma {:induction false} PoolFirstEachFinishes(g: TypeGraph, pick: nat -> nat, ts: seq<nat>, pooled: set<nat>, fuel: nat)
    requires WellFormed(g) && Picks(g, pick) && pooled <= g.Keys
    requires forall j :: 0 <= j < |ts| ==> ts[j] in g
    requires fuel > |g.Keys - pooled|
    ensures Finished(g, PoolFirstEach(g, pick, ts, pooled, fuel), pooled)
    decreases fuel, 2, |ts|
  {
    if ts != [] {
      PoolFirstFinishes(g, pick, ts[0], pooled, fuel);
      var after := PoolFirst(g, pick, ts[0], pooled, fuel).value;
      NoMoreLeft(g.Keys, pooled, after);
      PoolFirstEachFinishes(g, pick, ts[1..], after, fuel);
    }
  }

  /** On the list node, the test-case generator returns within three nested calls and leaves both types pooled. */
  lemma ListNodePoolFirst(pick: nat -> nat)
    requires Picks(ListNode(), pick)
    ensures PoolFirst(ListNode(), pick, 0, {}, 3) == Some({0, 1})
  {
    var g := ListNode();
    assert pick(0) == 0 by { assert 0 in g && g[0].StructNode?; }
    assert PartList(g[0], pick(0)) == [1] && PartList(g[1], pick(1)) == [0];
    assert PoolFirst(g, pick, 0, {0, 1}, 1) == Some({0, 1});
    assert PoolFirstEach(g, pick, [0][1..], {0, 1}, 1) == Some({0, 1});
    assert PoolFirstEach(g, pick, [0], {0, 1}, 1) == Some({0, 1});
    assert {0} + {1} == {0, 1} && {} + {0} == {0};
    assert 1 in g && 1 !in {0} && !g[1].BitsNode? && !g[1].StructNode?;
    assert PoolFirst(g, pick, 1, {0}, 2) == PoolFirstEach(g, pick, [0], {0, 1}, 1);
    assert PoolFirst(g, pick, 1, {0}, 2) == Some({0, 1});
    assert PoolFirstEach(g, pick, [1][1..], {0, 1}, 2) == Some({0, 1});
    assert PoolFirstEach(g, pick, [1], {0}, 2) == Some({0, 1});
    assert PoolFirst(g, pick, 0, {}, 3) == PoolFirstEach(g, pick, [1], {0}, 2);
  }
}
