/**
 * The function database of a fuzzing target
 * (include/Targets/Common/FunctionDatabase.h): it maps API function ids to
 * the target's function objects, found by resolving dotted names from the
 * global object one property at a time. Resolved properties are cached in a
 * trie so that a shared prefix is resolved once.
 *
 * The target's property lookup is foreign; here the target's objects are
 * values of a type parameter and its properties a map from (object, name) to
 * the property's value: a name missing from the map does not resolve. Trie nodes are numbered: node `i` holds `values[i]`, node 0 is the
 * root, and `children` maps a (node, component) edge to the child node.
 */
module FunctionDatabase {
  import opened Results
  import opened MachineInts
  import Strings
  import CafStore

  /** `name.find('.', start)`: the first '.' at or after `start`, or the length when there is none. */
  function FindDot(name: string, start: nat): (r: nat)
    requires start <= |name|
    ensures start <= r <= |name|
    ensures r < |name| ==> name[r] == '.'
    decreases |name| - start
  {
    if start == |name| then |name|
    else if name[start] == '.' then start
    else FindDot(name, start + 1)
  }

  /** No dot lies between `start` and the dot `FindDot` finds. */
  lemma {:induction false} FindDotSkips(name: string, start: nat)
    requires start <= |name|
    ensures forall i :: start <= i < FindDot(name, start) ==> name[i] != '.'
    decreases |name| - start
  {
    if start < |name| && name[start] != '.' {
      FindDotSkips(name, start + 1);
    }
  }

  /** `FindDot` gives the first dot at or after `start`, or the end when there is none. */
  lemma {:induction false} FindDotFirst(name: string, start: nat, k: nat)
    requires start <= k <= |name|
    requires forall i :: start <= i < k ==> name[i] != '.'
    requires k < |name| ==> name[k] == '.'
    ensures FindDot(name, start) == k
    decreases k - start
  {
    if start < k {
      FindDotFirst(name, start + 1, k);
    }
  }

  /**
   * The components of a dotted name, as `GetNode` walks them: the text up to
   * the first dot, then the components of what follows that dot. A final dot
   * starts no component, and the empty name has none.
   */
  function Components(name: string): seq<string>
    decreases |name|
  {
    if |name| == 0 then []
    else
      var d := FindDot(name, 0);
      if d == |name| then [name] else [name[..d]] + Components(name[d + 1..])
  }

  /** The part of the name from `start`, empty once `start` is past the end. */
  function Rest(name: string, start: nat): string
  {
    if start <= |name| then name[start..] else []
  }

  /**
   * One step of the walk over a name: when the components of the rest from
   * `start` are the suffix of `comps` from `i`, the next component runs from
   * `start` to the next dot, and the components after that dot are the
   * suffix from `i + 1`.
   */
  lemma WalkStep(name: string, start: nat, resume: nat, comps: seq<string>, i: nat)
    requires start < |name| && i <= |comps| && comps[i..] == Components(Rest(name, start))
    requires resume == FindDot(name, start) + 1
    ensures i < |comps| && comps[i] == name[start..resume - 1]
    ensures comps[i + 1..] == Components(Rest(name, resume))
    ensures comps[..i + 1] == comps[..i] + [comps[i]]
  {
    var t := name[start..];
    FindDotShift(name, start, start);
    var d := FindDot(t, 0);
    assert comps[i..][0] == comps[i] && comps[i..][1..] == comps[i + 1..];
    if d == |t| {
      assert Components(t) == [t];
      assert Rest(name, FindDot(name, start) + 1) == [];
    } else {
      assert Components(t) == [t[..d]] + Components(t[d + 1..]);
      assert t[..d] == name[start..start + d];
      assert t[d + 1..] == name[start + d + 1..];
    }
  }

  /** Whether the name ends in a '.'; that last dot starts no component. */
  predicate EndsInDot(name: string)
  {
    |name| > 0 && name[|name| - 1] == '.'
  }

  /** No component contains a dot. */
  lemma {:induction false} ComponentsNoDot(name: string)
    ensures forall c :: c in Components(name) ==> '.' !in c
    decreases |name|
  {
    if |name| > 0 {
      var d := FindDot(name, 0);
      FindDotSkips(name, 0);
      var x := name[..d];
      assert forall i :: 0 <= i < |x| ==> x[i] == name[i];
      if d < |name| {
        ComponentsNoDot(name[d + 1..]);
      }
    }
  }

  /** A name cut at a dot at `d` is the part before, the dot and the part after. */
  lemma SplitAtDot(name: string, d: nat)
    requires d < |name| && name[d] == '.'
    ensures name == name[..d] + "." + name[d + 1..]
  {
    assert name == name[..d] + name[d..];
    assert name[d..] == [name[d]] + name[d + 1..];
  }

  /** `ComponentsJoin` for a name without a dot: one component, the name itself. */
  lemma JoinNoDot(name: string)
    requires |name| > 0 && FindDot(name, 0) == |name|
    ensures Strings.Join(Components(name), ".") + (if EndsInDot(name) then "." else "") == name
  {
    FindDotSkips(name, 0);
    assert !EndsInDot(name);
    assert Components(name) == [name];
  }

  /**
   * `ComponentsJoin` for a name with a dot at `d`, given that it holds for
   * the text after the dot.
   */
  lemma JoinAtDot(name: string, d: nat)
    requires d == FindDot(name, 0) < |name|
    requires Strings.Join(Components(name[d + 1..]), ".") + (if EndsInDot(name[d + 1..]) then "." else "")
             == name[d + 1..]
    ensures Strings.Join(Components(name), ".") + (if EndsInDot(name) then "." else "") == name
  {
    var x, tail := name[..d], name[d + 1..];
    SplitAtDot(name, d);
    assert Components(name) == [x] + Components(tail);
    if |tail| == 0 {
      assert Components(name) == [x];
    } else {
      assert EndsInDot(tail) == EndsInDot(name);
      var rest := Components(tail);
      assert rest != [] by {
        if FindDot(tail, 0) < |tail| {
          assert rest == [tail[..FindDot(tail, 0)]] + Components(tail[FindDot(tail, 0) + 1..]);
        }
      }
      Strings.JoinConsSuffix(x, rest, ".", if EndsInDot(name) then "." else "", tail);
    }
  }

  /**
   * The components, joined with '.', give the name back, except for a final
   * dot, which starts no component.
   */
  lemma {:induction false} ComponentsJoin(name: string)
    ensures Strings.Join(Components(name), ".") + (if EndsInDot(name) then "." else "") == name
    decreases |name|
  {
    if |name| > 0 {
      var d := FindDot(name, 0);
      if d == |name| {
        JoinNoDot(name);
      } else {
        ComponentsJoin(name[d + 1..]);
        JoinAtDot(name, d);
      }
    }
  }

  lemma {:induction false} FindDotShift(name: string, start: nat, j: nat)
    requires start <= j <= |name|
    ensures FindDot(name, j) == start + FindDot(name[start..], j - start)
    decreases |name| - j
  {
    if j < |name| && name[j] != '.' {
      FindDotShift(name, start, j + 1);
    }
  }

  /**
   * Names that are non-empty and hold no dot, joined with '.', split back into
   * the same names: a path the extraction script writes is walked one
   * property per name.
   */
  lemma {:induction false} ComponentsOfJoin(names: seq<string>)
    requires forall n :: n in names ==> |n| > 0 && '.' !in n
    ensures Components(Strings.Join(names, ".")) == names
  {
    if |names| == 1 {
      var p := names[0];
      FindDotFirst(p, 0, |p|);
    } else if |names| > 1 {
      var p := names[0];
      var rest := Strings.Join(names[1..], ".");
      var name := p + "." + rest;
      assert forall i :: 0 <= i < |p| ==> name[i] == p[i] && p[i] != '.';
      assert name[|p|] == '.';
      FindDotFirst(name, 0, |p|);
      assert Strings.Join(names, ".") == name;
      assert name[..|p|] == p;
      assert name[|p| + 1..] == rest;
      ComponentsOfJoin(names[1..]);
    }
  }

  /** The property `name` of `v`, when the target has one. */
  function Resolve<V(==)>(properties: map<(V, string), V>, v: V, name: string): (r: Option<V>)
    ensures r.Some? <==> (v, name) in properties
    ensures r.Some? ==> r.value == properties[(v, name)]
  {
    if (v, name) in properties then Some(properties[(v, name)]) else None
  }

  /** Resolution of components one property at a time, from a value. */
  function ResolvePath<V(==)>(properties: map<(V, string), V>, v: V, comps: seq<string>): Option<V>
  {
    if comps == [] then Some(v)
    else
      match Resolve(properties, v, comps[0])
      case None => None
      case Some(w) => ResolvePath(properties, w, comps[1..])
  }

  /** Resolving the components from position `i` resolves the component at `i`, then the rest. */
  lemma ResolveFrom<V>(properties: map<(V, string), V>, v: V, comps: seq<string>, i: nat)
    requires i < |comps|
    ensures ResolvePath(properties, v, comps[i..]) ==
      match Resolve(properties, v, comps[i])
      case None => None
      case Some(w) => ResolvePath(properties, w, comps[i + 1..])
  {
    assert comps[i..][0] == comps[i] && comps[i..][1..] == comps[i + 1..];
  }

  /** The node the cache reaches from `node` along `comps`, without the property map. */
  function CachedWalk(children: map<(nat, string), nat>, node: nat, comps: seq<string>): Option<nat>
  {
    if comps == [] then Some(node)
    else
      match CachedWalk(children, node, comps[..|comps| - 1])
      case None => None
      case Some(p) =>
        if (p, comps[|comps| - 1]) in children then Some(children[(p, comps[|comps| - 1])]) else None
  }

  /** Walking one more component from the cache follows one more cached edge. */
  lemma CachedWalkSnoc(children: map<(nat, string), nat>, node: nat, comps: seq<string>, c: string)
    ensures CachedWalk(children, node, comps + [c]) ==
      match CachedWalk(children, node, comps)
      case None => None
      case Some(p) => if (p, c) in children then Some(children[(p, c)]) else None
  {
    assert (comps + [c])[..|comps|] == comps;
  }

  /** A new edge from the end of a cached walk extends the walk by its component. */
  lemma ExtendWalk(children: map<(nat, string), nat>, walked: seq<string>, ptr: nat, c: string, n: nat)
    requires CachedWalk(children, 0, walked) == Some(ptr) && (ptr, c) !in children
    ensures CachedWalk(children[(ptr, c) := n], 0, walked) == Some(ptr)
    ensures CachedWalk(children[(ptr, c) := n], 0, walked + [c]) == Some(n)
  {
    CachedWalkGrows(children, children[(ptr, c) := n], 0, walked);
    CachedWalkSnoc(children[(ptr, c) := n], 0, walked, c);
  }

  /** A larger cache reaches whatever a smaller one reaches, at the same node. */
  lemma {:induction false} CachedWalkGrows(small: map<(nat, string), nat>, big: map<(nat, string), nat>,
                                           node: nat, comps: seq<string>)
    requires forall k :: k in small ==> k in big && big[k] == small[k]
    requires CachedWalk(small, node, comps).Some?
    ensures CachedWalk(big, node, comps) == CachedWalk(small, node, comps)
  {
    if comps != [] {
      CachedWalkGrows(small, big, node, comps[..|comps| - 1]);
    }
  }

  /** Every prefix of a cached path is cached. */
  lemma {:induction false} CachedWalkPrefix(children: map<(nat, string), nat>, node: nat, comps: seq<string>, k: nat)
    requires k <= |comps|
    requires CachedWalk(children, node, comps).Some?
    ensures CachedWalk(children, node, comps[..k]).Some?
    decreases |comps|
  {
    if k < |comps| {
      assert comps[..|comps| - 1][..k] == comps[..k];
      CachedWalkPrefix(children, node, comps[..|comps| - 1], k);
    } else {
      assert comps[..k] == comps;
    }
  }

  /**
   * A trie over `values` rooted at `global`, whose cached edges hold what the
   * property map gives for the parent's value and the edge's component.
   */
  ghost predicate TrieValid<V>(properties: map<(V, string), V>, global: V, values: seq<V>,
                               children: map<(nat, string), nat>)
  {
    |values| > 0 && values[0] == global &&
    forall k :: k in children ==>
      k.0 < |values| && children[k] < |values| && Resolve(properties, values[k.0], k.1) == Some(values[children[k]])
  }

  /** `AddChild`: caching a resolved component as a new node keeps the trie valid. */
  lemma AddChildValid<V>(properties: map<(V, string), V>, global: V, values: seq<V>,
                         children: map<(nat, string), nat>, ptr: nat, component: string, w: V)
    requires TrieValid(properties, global, values, children)
    requires ptr < |values| && Resolve(properties, values[ptr], component) == Some(w)
    ensures TrieValid(properties, global, values + [w], children[(ptr, component) := |values|])
  {
    var values', children' := values + [w], children[(ptr, component) := |values|];
    forall k | k in children'
      ensures k.0 < |values'| && children'[k] < |values'| && Resolve(properties, values'[k.0], k.1) == Some(values'[children'[k]])
    {
      if k != (ptr, component) {
        assert k in children;
      }
    }
  }

  class FunctionDatabase<V(==)> {
    const properties: map<(V, string), V>
    const global: V
    var values: seq<V>
    var children: map<(nat, string), nat>
    var funcIdToNode: map<u32, nat>
    /** How many times the model has looked a property up in the target. */
    ghost var resolverCalls: nat

    /**
     * The trie is rooted at the global object and every cached edge holds what
     * the property map gives for its parent's value and its component.
     */
    ghost predicate Valid()
      reads this
    {
      TrieValid(properties, global, values, children) &&
      (forall id :: id in funcIdToNode ==> funcIdToNode[id] < |values|)
    }

    constructor (properties: map<(V, string), V>, global: V)
      ensures Valid()
      ensures this.properties == properties && this.global == global
      ensures values == [global] && children == map[] && funcIdToNode == map[]
    {
      this.properties := properties;
      this.global := global;
      values := [global];
      children := map[];
      funcIdToNode := map[];
      resolverCalls := 0;
    }

    /**
     * `TrieNode::AddChild`: a new node holding `w` becomes the child of node
     * `ptr` for the component.
     */
    method AddChild(ptr: nat, component: string, w: V) returns (next: nat)
      requires Valid() && ptr < |values| && Resolve(properties, values[ptr], component) == Some(w)
      modifies this
      ensures Valid()
      ensures next == |old(values)|
      ensures values == old(values) + [w] && children == old(children)[(ptr, component) := next]
      ensures funcIdToNode == old(funcIdToNode) && resolverCalls == old(resolverCalls)
    {
      AddChildValid(properties, global, values, children, ptr, component, w);
      next := |values|;
      values := values + [w];
      children := children[(ptr, component) := next];
    }

    /**
     * One step of `GetNode`: the cached child of node `ptr` for the component,
     * or else the resolved property added as a new child; `None` when the
     * property does not resolve. `walked` is the cached path that led to `ptr`.
     */
    method Child(ptr: nat, component: string, ghost walked: seq<string>) returns (next: Option<nat>)
      requires Valid() && ptr < |values|
      requires CachedWalk(children, 0, walked) == Some(ptr)
      modifies this
      ensures Valid()
      ensures next.Some? <==> Resolve(properties, old(values)[ptr], component).Some?
      ensures next.Some? ==> next.value < |values| && Some(values[next.value]) == Resolve(properties, old(values)[ptr], component)
      ensures next.Some? ==> CachedWalk(children, 0, walked + [component]) == next
      ensures old(values) <= values
      ensures forall k :: k in old(children) ==> k in children && children[k] == old(children)[k]
      ensures funcIdToNode == old(funcIdToNode)
      ensures CachedWalk(old(children), 0, walked + [component]).Some? ==>
        next.Some? && values == old(values) && children == old(children) && resolverCalls == old(resolverCalls)
    {
      CachedWalkSnoc(children, 0, walked, component);
      if (ptr, component) !in children {
        var prop := Resolve(properties, values[ptr], component);
        resolverCalls := resolverCalls + 1;
        if prop.None? {
          return None;
        }
        ExtendWalk(children, walked, ptr, component, |values|);
        var n := AddChild(ptr, component, prop.value);
        next := Some(n);
      } else {
        next := Some(children[(ptr, component)]);
      }
    }

    /**
     * The component `GetNode` cuts out of the name at `start`, up to the next
     * dot, and where the walk resumes after that dot. With `comps` the name's
     * components and `i` the number already walked, it is `comps[i]`.
     */
    static method NextComponent(name: string, start: nat, ghost comps: seq<string>, ghost i: nat)
      returns (component: string, start': nat)
      requires start < |name| && i <= |comps| && comps[i..] == Components(Rest(name, start))
      ensures start < start' && i < |comps| && component == comps[i]
      ensures comps[i + 1..] == Components(Rest(name, start'))
      ensures comps[..i + 1] == comps[..i] + [component]
    {
      var sepPos := FindDot(name, start);
      component := name[start..sepPos];
      start' := sepPos + 1;
      WalkStep(name, start, start', comps, i);
    }

    /**
     * `GetNode`: walk the name's components from the root, reusing cached
     * children and resolving and caching the others; `None` when a component
     * does not resolve. A name whose whole path is already cached is answered
     * without looking any property up and without changing the trie.
     */
    method GetNode(name: string) returns (r: Option<nat>)
      requires Valid()
      modifies this
      ensures Valid()
      ensures r.Some? <==> ResolvePath(properties, global, Components(name)).Some?
      ensures r.Some? ==> r.value < |values| && values[r.value] == ResolvePath(properties, global, Components(name)).value
      ensures r.Some? ==> CachedWalk(children, 0, Components(name)) == r
      ensures old(values) <= values
      ensures funcIdToNode == old(funcIdToNode)
      ensures CachedWalk(old(children), 0, Components(name)).Some? ==>
        r.Some? && values == old(values) && children == old(children) && resolverCalls == old(resolverCalls)
    {
      var ptr: nat := 0;
      var start: nat := 0;
      ghost var comps := Components(name);
      ghost var target := ResolvePath(properties, global, comps);
      ghost var i: nat := 0;
      ghost var cachedAtEntry := CachedWalk(children, 0, comps).Some?;
      while start < |name|
        invariant Valid()
        invariant i <= |comps| && comps[i..] == Components(Rest(name, start))
        invariant ptr < |values| && target == ResolvePath(properties, values[ptr], comps[i..])
        invariant CachedWalk(children, 0, comps[..i]) == Some(ptr)
        invariant old(values) <= values
        invariant funcIdToNode == old(funcIdToNode)
        invariant cachedAtEntry ==>
          values == old(values) && children == old(children) && resolverCalls == old(resolverCalls)
        decreases |name| - start
      {
        var component;
        component, start := NextComponent(name, start, comps, i);
        ResolveFrom(properties, values[ptr], comps, i);
        if cachedAtEntry {
          CachedWalkPrefix(children, 0, comps, i + 1);
        }
        var next := Child(ptr, component, comps[..i]);
        if next.None? {
          return None;
        }
        ptr := next.value;
        i := i + 1;
      }
      assert comps[i..] == [] && comps[..i] == comps;
      return Some(ptr);
    }

    /**
     * `AddFunction`: `exited` when the name does not resolve (the source
     * prints an error and ends the process); otherwise the id now maps to the
     * name's node.
     */
    method AddFunction(funcId: u32, name: string) returns (exited: bool)
      requires Valid()
      modifies this
      ensures Valid()
      ensures exited <==> ResolvePath(properties, global, Components(name)).None?
      ensures exited ==> funcIdToNode == old(funcIdToNode)
      ensures !exited ==> funcIdToNode.Keys == old(funcIdToNode).Keys + {funcId}
      ensures !exited ==> forall id :: id in old(funcIdToNode) && id != funcId ==> funcIdToNode[id] == old(funcIdToNode)[id]
      ensures !exited ==> GetFunction(funcId) == ResolvePath(properties, global, Components(name))
      ensures old(values) <= values
      ensures forall id :: id in old(funcIdToNode) && id != funcId ==> GetFunction(id) == old(GetFunction(id))
    {
      var node := GetNode(name);
      if node.None? {
        return true;
      }
      funcIdToNode := funcIdToNode[funcId := node.value];
      return false;
    }

    /**
     * `Populate`: register every store function under its id and name, in
     * order; stop as the process would at the first name that does not resolve.
     */
    method Populate(fns: seq<CafStore.Function>) returns (exited: bool)
      requires Valid()
      modifies this
      ensures Valid()
      ensures !exited <==> forall i :: 0 <= i < |fns| ==> ResolvePath(properties, global, Components(fns[i].name)).Some?
      ensures !exited ==> forall i :: 0 <= i < |fns| && (forall j :: i < j < |fns| ==> fns[j].id != fns[i].id) ==>
        GetFunction(fns[i].id) == ResolvePath(properties, global, Components(fns[i].name))
      ensures !exited ==> funcIdToNode.Keys == old(funcIdToNode).Keys + set i | 0 <= i < |fns| :: fns[i].id
    {
      var i := 0;
      while i < |fns|
        invariant 0 <= i <= |fns|
        invariant Valid()
        invariant forall j :: 0 <= j < i ==> ResolvePath(properties, global, Components(fns[j].name)).Some?
        invariant forall j :: 0 <= j < i && (forall l :: j < l < i ==> fns[l].id != fns[j].id) ==>
          GetFunction(fns[j].id) == ResolvePath(properties, global, Components(fns[j].name))
        invariant funcIdToNode.Keys == old(funcIdToNode).Keys + set j | 0 <= j < i :: fns[j].id
      {
        exited := AddFunction(fns[i].id, fns[i].name);
        if exited {
          return;
        }
        i := i + 1;
      }
      return false;
    }

    /** `GetFunction`: the function object registered under the id, if any. */
    function GetFunction(funcId: u32): (r: Option<V>)
      requires Valid()
      reads this
      ensures r.Some? <==> funcId in funcIdToNode
      ensures r.Some? ==> r.value == values[funcIdToNode[funcId]]
    {
      if funcId in funcIdToNode then Some(values[funcIdToNode[funcId]]) else None
    }
  }
}
