/**
 * The API-discovery walk of the JavaScript extraction script
 * (src/Scripts/ExtractAPI.js): a breadth-first traversal that starts at the
 * global object, follows own properties, skips a few reserved names and
 * throwing reads, and records every callable it meets under a dotted path
 * with a sequential id.
 *
 * The JavaScript heap is abstracted as a map from value identities to what
 * the walk can observe of a value: whether `typeof` says "function", and its
 * own property names in `Object.getOwnPropertyNames` order with the outcome
 * of reading each of them. Identities stand for objects (compared by
 * reference) and for primitive values (compared by value), because the
 * visited `Set` compares both that way.
 */
module ExtractApi {
  import opened Results
  import Strings

  type NodeId = nat

  /** A JavaScript value as the walk sees it. */
  datatype JsValue = Undefined | Null | Ref(id: NodeId)

  /** Reading a property either throws (a getter may) or yields a value. */
  datatype PropertyRead = Throws | Yields(value: JsValue)

  datatype Property = Property(name: string, read: PropertyRead)

  /** A non-nullish value: its `typeof` test and its own properties, in order. */
  datatype JsObject = JsObject(isFunction: bool, properties: seq<Property>)

  type Heap = map<NodeId, JsObject>

  /** One recorded callable: its id, its dotted path and the callable itself. */
  datatype FunctionInfo = FunctionInfo(id: nat, name: string, func: NodeId)

  /** What `canonicalize` keeps of a FunctionInfo. */
  datatype CanonicalInfo = CanonicalInfo(id: nat, name: string)

  /** A queue entry: the path of a value and the value. */
  datatype Entry = Entry(path: string, value: JsValue)

  const ExcludedProperties: seq<string> := ["caller", "callee", "arguments"]
  const CafNames: seq<string> := ["caf", "CAFFuzzer"]

  /** Names the walk never follows. */
  predicate IsSkippedName(name: string)
  {
    name in ExcludedProperties || name in CafNames
  }

  /** Every value a property read yields is in the heap. */
  predicate Closed(heap: Heap)
  {
    forall id, k ::
      id in heap && 0 <= k < |heap[id].properties| &&
      heap[id].properties[k].read.Yields? && heap[id].properties[k].read.value.Ref?
      ==> heap[id].properties[k].read.value.id in heap
  }

  /** Own property names of a value are pairwise distinct, as JavaScript guarantees. */
  predicate UniqueNames(heap: Heap)
  {
    forall id, i, j :: id in heap && 0 <= i < j < |heap[id].properties| ==>
      heap[id].properties[i].name != heap[id].properties[j].name
  }

  /** The property with the given name, if the value has one. */
  function Lookup(props: seq<Property>, name: string): (r: Option<Property>)
    ensures r.Some? ==> r.value in props && r.value.name == name
    ensures r.None? ==> forall k :: 0 <= k < |props| ==> props[k].name != name
  {
    if props == [] then None
    else if props[0].name == name then Some(props[0])
    else Lookup(props[1..], name)
  }

  /**
   * Plain JavaScript navigation along a list of property names: `None` when a
   * read throws, a name is absent, or a nullish value is dereferenced.
   */
  function Resolve(heap: Heap, root: JsValue, names: seq<string>): Option<JsValue>
  {
    if names == [] then Some(root)
    else
      match Resolve(heap, root, names[..|names| - 1])
      case Some(Ref(id)) =>
        if id in heap then
          match Lookup(heap[id].properties, names[|names| - 1])
          case Some(Property(_, Yields(v))) => Some(v)
          case _ => None
        else None
      case _ => None
  }

  /** A path the walk may take: it uses no skipped name. */
  predicate AvoidsSkipped(names: seq<string>)
  {
    forall j :: 0 <= j < |names| ==> !IsSkippedName(names[j])
  }

  /** The path of a child: the parent path, a dot when the parent path is non-empty, the name. */
  function ChildPath(path: string, name: string): string
  {
    if |path| > 0 then path + "." + name else name
  }

  /** The textual path of a list of property names, built one child at a time. */
  function JoinPath(names: seq<string>): string
  {
    if names == [] then "" else ChildPath(JoinPath(names[..|names| - 1]), names[|names| - 1])
  }

  /** The value the walk enqueues for a property: nothing for skipped names, throwing reads and nullish values. */
  function ChildOf(p: Property): JsValue
  {
    if IsSkippedName(p.name) || p.read.Throws? then Undefined else p.read.value
  }

  /** The first `n` properties of `v` lead only to values in `s`. */
  ghost predicate ChildrenUpTo(heap: Heap, v: JsValue, n: nat, s: set<JsValue>)
  {
    v.Ref? && v.id in heap ==>
      forall k :: 0 <= k < n && k < |heap[v.id].properties| && ChildOf(heap[v.id].properties[k]).Ref? ==>
        ChildOf(heap[v.id].properties[k]) in s
  }

  /** Every property of `v` the walk follows leads to a value in `s`. */
  ghost predicate ChildrenIn(heap: Heap, v: JsValue, s: set<JsValue>)
  {
    v.Ref? && v.id in heap ==> ChildrenUpTo(heap, v, |heap[v.id].properties|, s)
  }

  /** The values waiting in the queue. */
  function QueueValues(q: seq<Entry>): set<JsValue>
  {
    if q == [] then {} else {q[0].value} + QueueValues(q[1..])
  }

  lemma {:induction false} QueueValuesAppend(q: seq<Entry>, e: Entry)
    ensures QueueValues(q + [e]) == QueueValues(q) + {e.value}
  {
    if q != [] {
      assert (q + [e])[1..] == q[1..] + [e];
      QueueValuesAppend(q[1..], e);
    }
  }

  lemma {:induction false} QueueValuesAt(q: seq<Entry>, v: JsValue)
    ensures v in QueueValues(q) <==> exists i :: 0 <= i < |q| && q[i].value == v
  {
    if q != [] {
      QueueValuesAt(q[1..], v);
      if v in QueueValues(q[1..]) {
        var i :| 0 <= i < |q[1..]| && q[1..][i].value == v;
        assert q[i + 1].value == v;
      }
      if exists i :: 0 <= i < |q| && q[i].value == v {
        var i :| 0 <= i < |q| && q[i].value == v;
        if i > 0 { assert q[1..][i - 1].value == v; }
      }
    }
  }

  /** With unique names, looking a property up by its own name finds it. */
  lemma LookupOwnName(props: seq<Property>, k: nat)
    requires k < |props|
    requires forall i, j :: 0 <= i < j < |props| ==> props[i].name != props[j].name
    ensures Lookup(props, props[k].name) == Some(props[k])
  {
    if k > 0 {
      LookupOwnName(props[1..], k - 1);
    }
  }

  /** Taking one followed property extends a resolved path by that name. */
  lemma ResolveChild(heap: Heap, root: JsValue, names: seq<string>, id: NodeId, k: nat)
    requires UniqueNames(heap)
    requires Resolve(heap, root, names) == Some(Ref(id)) && id in heap
    requires k < |heap[id].properties| && ChildOf(heap[id].properties[k]).Ref?
    ensures Resolve(heap, root, names + [heap[id].properties[k].name]) == Some(ChildOf(heap[id].properties[k]))
    ensures JoinPath(names + [heap[id].properties[k].name]) == ChildPath(JoinPath(names), heap[id].properties[k].name)
  {
    var name := heap[id].properties[k].name;
    assert (names + [name])[..|names|] == names;
    LookupOwnName(heap[id].properties, k);
  }

  /**
   * A set that holds the root and is closed under the walk's edges holds every
   * value reachable from the root along a path that avoids skipped names.
   */
  lemma {:induction false} ClosedSetHoldsReachable(heap: Heap, root: JsValue, s: set<JsValue>, names: seq<string>)
    requires root in s
    requires forall v :: v in s ==> ChildrenIn(heap, v, s)
    requires AvoidsSkipped(names)
    requires Resolve(heap, root, names).Some? && Resolve(heap, root, names).value.Ref?
    ensures Resolve(heap, root, names).value in s
  {
    if names != [] {
      var prefix := names[..|names| - 1];
      var name := names[|names| - 1];
      assert AvoidsSkipped(prefix);
      var parent := Resolve(heap, root, prefix);
      assert parent.Some? && parent.value.Ref? && parent.value.id in heap;
      ClosedSetHoldsReachable(heap, root, s, prefix);
      var props := heap[parent.value.id].properties;
      var p := Lookup(props, name).value;
      var k :| 0 <= k < |props| && props[k] == p;
      assert !IsSkippedName(name);
      assert ChildOf(props[k]) == Resolve(heap, root, names).value;
      assert ChildrenIn(heap, parent.value, s);
    }
  }

  /** A value the walk reaches is in the heap. */
  lemma {:induction false} ResolveInHeap(heap: Heap, root: JsValue, names: seq<string>)
    requires Closed(heap)
    requires root.Ref? ==> root.id in heap
    requires Resolve(heap, root, names).Some? && Resolve(heap, root, names).value.Ref?
    ensures Resolve(heap, root, names).value.id in heap
  {
    if names != [] {
      var prefix := names[..|names| - 1];
      ResolveInHeap(heap, root, prefix);
      var parent := Resolve(heap, root, prefix).value;
      var p := Lookup(heap[parent.id].properties, names[|names| - 1]).value;
      var k :| 0 <= k < |heap[parent.id].properties| && heap[parent.id].properties[k] == p;
    }
  }

  /** A path of non-empty names is written as the names joined with ".". */
  lemma {:induction false} JoinPathIsDotJoin(names: seq<string>)
    requires forall j :: 0 <= j < |names| ==> |names[j]| > 0
    ensures JoinPath(names) == Strings.Join(names, ".")
    ensures names != [] ==> |JoinPath(names)| > 0
  {
    if names != [] {
      var prefix := names[..|names| - 1];
      JoinPathIsDotJoin(prefix);
      if prefix != [] {
        assert names == prefix + [names[|names| - 1]];
        Strings.JoinSnoc(prefix, names[|names| - 1], ".");
      }
    }
  }

  /** `canonicalize`: only the id and the name are kept. */
  function Canonicalize(f: FunctionInfo): (c: CanonicalInfo)
    ensures c.id == f.id && c.name == f.name
  {
    CanonicalInfo(f.id, f.name)
  }

  /** The dumped database: the names of the recorded callables, in order. */
  function OutputNames(funcs: seq<FunctionInfo>): (r: seq<string>)
    ensures |r| == |funcs|
    ensures forall i :: 0 <= i < |funcs| ==> r[i] == funcs[i].name
  {
    if funcs == [] then [] else [funcs[0].name] + OutputNames(funcs[1..])
  }

  /** Since ids are 0..N-1 in order, the i-th dumped name is the name of callable i. */
  lemma OutputNameOfId(funcs: seq<FunctionInfo>, i: nat)
    requires forall j :: 0 <= j < |funcs| ==> funcs[j].id == j
    requires i < |funcs|
    ensures exists j :: 0 <= j < |funcs| && funcs[j].id == i && OutputNames(funcs)[i] == Canonicalize(funcs[j]).name
  {
    assert funcs[i].id == i;
  }

  /** All values the walk can ever hold: the root and the heap's values. */
  function AllValues(heap: Heap, root: JsValue): set<JsValue>
  {
    {root} + set id | id in heap :: Ref(id)
  }

  /**
   * The queue state: `visited` is what was processed (`done`) plus what waits;
   * waiting values are new and distinct; each entry carries a walk path.
   */
  ghost predicate QueueInv(heap: Heap, root: JsValue, queue: seq<Entry>, queuePaths: seq<seq<string>>,
                           visited: set<JsValue>, done: set<JsValue>)
  {
    |queuePaths| == |queue| &&
    visited == done + QueueValues(queue) &&
    root in visited && visited <= AllValues(heap, root) &&
    (forall i :: 0 <= i < |queue| ==> queue[i].value !in done) &&
    (forall i, j :: 0 <= i < j < |queue| ==> queue[i].value != queue[j].value) &&
    (forall i :: 0 <= i < |queue| ==>
      AvoidsSkipped(queuePaths[i]) && Resolve(heap, root, queuePaths[i]) == Some(queue[i].value) &&
      queue[i].path == JoinPath(queuePaths[i]))
  }

  /**
   * The recorded callables: ids 0..N-1, distinct processed callables of the
   * heap, each under a walk path; every processed callable is recorded.
   */
  ghost predicate FuncsInv(heap: Heap, root: JsValue, funcs: seq<FunctionInfo>, paths: seq<seq<string>>,
                           done: set<JsValue>)
  {
    FuncsListed(heap, root, funcs, paths) && FuncsDone(funcs, done) && FuncsRecorded(heap, funcs, done)
  }

  /** Ids 0..N-1, distinct callables of the heap, each under a walk path that resolves to it. */
  ghost predicate FuncsListed(heap: Heap, root: JsValue, funcs: seq<FunctionInfo>, paths: seq<seq<string>>)
  {
    |paths| == |funcs| &&
    (forall i :: 0 <= i < |funcs| ==> funcs[i].id == i) &&
    (forall i :: 0 <= i < |funcs| ==> funcs[i].func in heap && heap[funcs[i].func].isFunction) &&
    (forall i, j :: 0 <= i < j < |funcs| ==> funcs[i].func != funcs[j].func) &&
    (forall i :: 0 <= i < |funcs| ==>
      AvoidsSkipped(paths[i]) && Resolve(heap, root, paths[i]) == Some(Ref(funcs[i].func)) &&
      funcs[i].name == JoinPath(paths[i]))
  }

  /** Every recorded callable was processed. */
  ghost predicate FuncsDone(funcs: seq<FunctionInfo>, done: set<JsValue>)
  {
    forall i :: 0 <= i < |funcs| ==> Ref(funcs[i].func) in done
  }

  /** Every processed callable is recorded. */
  ghost predicate FuncsRecorded(heap: Heap, funcs: seq<FunctionInfo>, done: set<JsValue>)
  {
    forall v :: v in done && v.Ref? && v.id in heap && heap[v.id].isFunction ==>
      exists i :: 0 <= i < |funcs| && Ref(funcs[i].func) == v
  }

  /** A new callable under the next id and a path resolving to it extends the list. */
  lemma ListedAppend(heap: Heap, root: JsValue, funcs: seq<FunctionInfo>, paths: seq<seq<string>>,
                     f: FunctionInfo, path: seq<string>)
    requires FuncsListed(heap, root, funcs, paths)
    requires f.id == |funcs| && f.func in heap && heap[f.func].isFunction
    requires forall i :: 0 <= i < |funcs| ==> funcs[i].func != f.func
    requires AvoidsSkipped(path) && Resolve(heap, root, path) == Some(Ref(f.func)) && f.name == JoinPath(path)
    ensures FuncsListed(heap, root, funcs + [f], paths + [path])
  {
    var funcs', paths' := funcs + [f], paths + [path];
    forall i | 0 <= i < |funcs| ensures funcs'[i] == funcs[i] && paths'[i] == paths[i] {
    }
  }

  /** Recording a value as it is processed keeps every processed callable recorded. */
  lemma RecordedAppend(heap: Heap, funcs: seq<FunctionInfo>, done: set<JsValue>, f: FunctionInfo)
    requires FuncsRecorded(heap, funcs, done)
    ensures FuncsRecorded(heap, funcs + [f], done + {Ref(f.func)})
  {
    var funcs' := funcs + [f];
    forall v | v in done + {Ref(f.func)} && v.Ref? && v.id in heap && heap[v.id].isFunction
      ensures exists i :: 0 <= i < |funcs'| && Ref(funcs'[i].func) == v
    {
      if v == Ref(f.func) {
        assert Ref(funcs'[|funcs|].func) == v;
      } else {
        var i :| 0 <= i < |funcs| && Ref(funcs[i].func) == v;
        assert Ref(funcs'[i].func) == v;
      }
    }
  }

  /** Taking the head of the queue moves it from the waiting values to the processed ones. */
  lemma Dequeue(heap: Heap, root: JsValue, queue: seq<Entry>, queuePaths: seq<seq<string>>,
                visited: set<JsValue>, done: set<JsValue>)
    requires QueueInv(heap, root, queue, queuePaths, visited, done) && |queue| > 0
    ensures QueueInv(heap, root, queue[1..], queuePaths[1..], visited, done + {queue[0].value})
    ensures queue[0].value in visited && queue[0].value !in done
  {
    assert QueueValues(queue) == {queue[0].value} + QueueValues(queue[1..]);
    QueueValuesAt(queue[1..], queue[0].value);
  }

  /** Enqueueing a new value under a walk path keeps the queue state. */
  lemma Enqueue(heap: Heap, root: JsValue, queue: seq<Entry>, queuePaths: seq<seq<string>>,
                visited: set<JsValue>, done: set<JsValue>, e: Entry, path: seq<string>)
    requires QueueInv(heap, root, queue, queuePaths, visited, done)
    requires e.value !in visited && e.value in AllValues(heap, root)
    requires AvoidsSkipped(path) && Resolve(heap, root, path) == Some(e.value) && e.path == JoinPath(path)
    ensures QueueInv(heap, root, queue + [e], queuePaths + [path], visited + {e.value}, done)
  {
    QueueValuesAppend(queue, e);
    forall i | 0 <= i < |queue| ensures queue[i].value != e.value {
      QueueValuesAt(queue, queue[i].value);
    }
  }

  /**
   * The breadth-first order of the queue: the waiting paths are ordered by
   * length, and each is as long as the last dequeued path (`level`) or one
   * longer.
   */
  ghost predicate QueueOrder(queuePaths: seq<seq<string>>, level: nat)
  {
    (forall i, j :: 0 <= i < j < |queuePaths| ==> |queuePaths[i]| <= |queuePaths[j]|) &&
    (forall i :: 0 <= i < |queuePaths| ==> level <= |queuePaths[i]| <= level + 1)
  }

  /** The recorded paths are ordered by length and none is longer than the last dequeued one. */
  ghost predicate PathsOrder(paths: seq<seq<string>>, level: nat)
  {
    (forall i, j :: 0 <= i < j < |paths| ==> |paths[i]| <= |paths[j]|) &&
    (forall i :: 0 <= i < |paths| ==> |paths[i]| <= level)
  }

  /** Dequeueing the head makes its length the level, and the rest of the queue keeps the order. */
  lemma DequeueOrder(queuePaths: seq<seq<string>>, level: nat, paths: seq<seq<string>>)
    requires QueueOrder(queuePaths, level) && PathsOrder(paths, level) && |queuePaths| > 0
    ensures level <= |queuePaths[0]|
    ensures QueueOrder(queuePaths[1..], |queuePaths[0]|) && PathsOrder(paths, |queuePaths[0]|)
  {
    var rest := queuePaths[1..];
    forall i | 0 <= i < |rest| ensures |queuePaths[0]| <= |rest[i]| <= |queuePaths[0]| + 1 {
      assert rest[i] == queuePaths[i + 1];
    }
  }

  /** A child path, one name longer than the level, goes to the back of the queue in order. */
  lemma EnqueueOrder(queuePaths: seq<seq<string>>, level: nat, path: seq<string>)
    requires QueueOrder(queuePaths, level) && |path| == level + 1
    ensures QueueOrder(queuePaths + [path], level)
  {
  }

  /** Recording a path of the level's length keeps the recorded paths in order. */
  lemma RecordOrder(paths: seq<seq<string>>, level: nat, path: seq<string>)
    requires PathsOrder(paths, level) && |path| == level
    ensures PathsOrder(paths + [path], level)
  {
  }

  /**
   * The inner loop of `findFunctions`: enqueue, under its child path, every
   * own property of `obj` that is not skipped, does not throw, is not nullish
   * and was not visited yet.
   */
  method ExpandProperties(heap: Heap, root: JsValue, obj: NodeId, entry: Entry, ghost entryPath: seq<string>,
                          queue0: seq<Entry>, ghost queuePaths0: seq<seq<string>>, visited0: set<JsValue>,
                          ghost done: set<JsValue>)
    returns (queue: seq<Entry>, ghost queuePaths: seq<seq<string>>, visited: set<JsValue>)
    requires Closed(heap) && UniqueNames(heap) && obj in heap && entry.value == Ref(obj)
    requires AvoidsSkipped(entryPath) && Resolve(heap, root, entryPath) == Some(entry.value)
    requires entry.path == JoinPath(entryPath)
    requires QueueInv(heap, root, queue0, queuePaths0, visited0, done + {entry.value})
    requires forall v :: v in done ==> ChildrenIn(heap, v, visited0)
    requires QueueOrder(queuePaths0, |entryPath|)
    ensures QueueInv(heap, root, queue, queuePaths, visited, done + {entry.value})
    ensures forall v :: v in done + {entry.value} ==> ChildrenIn(heap, v, visited)
    ensures QueueOrder(queuePaths, |entryPath|)
  {
    queue, queuePaths, visited := queue0, queuePaths0, visited0;
    var props := heap[obj].properties;
    var k := 0;
    while k < |props|
      invariant 0 <= k <= |props|
      invariant QueueInv(heap, root, queue, queuePaths, visited, done + {entry.value})
      invariant visited0 <= visited
      invariant forall v :: v in done ==> ChildrenIn(heap, v, visited)
      invariant ChildrenUpTo(heap, entry.value, k, visited)
      invariant QueueOrder(queuePaths, |entryPath|)
    {
      var name := props[k].name;
      if name in ExcludedProperties {
      } else if name in CafNames {
      } else if props[k].read.Throws? {
      } else {
        var children := props[k].read.value;
        if children.Undefined? || children.Null? {
        } else if children in visited {
        } else {
          assert children == ChildOf(props[k]);
          ResolveChild(heap, root, entryPath, obj, k);
          var childrenPath := entry.path;
          if |childrenPath| > 0 {
            childrenPath := childrenPath + ".";
          }
          childrenPath := childrenPath + name;
          assert children.id in heap;
          assert AvoidsSkipped(entryPath + [name]);
          Enqueue(heap, root, queue, queuePaths, visited, done + {entry.value},
                  Entry(childrenPath, children), entryPath + [name]);
          EnqueueOrder(queuePaths, |entryPath|, entryPath + [name]);
          queue := queue + [Entry(childrenPath, children)];
          queuePaths := queuePaths + [entryPath + [name]];
          visited := visited + {children};
        }
      }
      k := k + 1;
    }
  }

  /** Processing one more value of `all` shrinks what is left to process. */
  lemma Progress(all: set<JsValue>, done: set<JsValue>, v: JsValue)
    requires v in all && v !in done
    ensures |all - (done + {v})| < |all - done|
  {
    assert all - done == (all - (done + {v})) + {v};
  }

  /** Processing a dequeued callable records it under the next id, and keeps the record state. */
  lemma RecordCallable(heap: Heap, root: JsValue, funcs: seq<FunctionInfo>, paths: seq<seq<string>>, done: set<JsValue>,
                       entry: Entry, entryPath: seq<string>)
    requires FuncsInv(heap, root, funcs, paths, done) && entry.value !in done
    requires AvoidsSkipped(entryPath) && Resolve(heap, root, entryPath) == Some(entry.value)
    requires entry.path == JoinPath(entryPath)
    requires entry.value.Ref? && entry.value.id in heap && heap[entry.value.id].isFunction
    ensures FuncsInv(heap, root, funcs + [FunctionInfo(|funcs|, entry.path, entry.value.id)], paths + [entryPath],
                     done + {entry.value})
  {
    var f := FunctionInfo(|funcs|, entry.path, entry.value.id);
    assert forall i :: 0 <= i < |funcs| ==> funcs[i].func != f.func by {
      forall i | 0 <= i < |funcs| ensures funcs[i].func != f.func {
        assert Ref(funcs[i].func) in done;
      }
    }
    ListedAppend(heap, root, funcs, paths, f, entryPath);
    RecordedAppend(heap, funcs, done, f);
    var funcs' := funcs + [f];
    forall i | 0 <= i < |funcs'| ensures Ref(funcs'[i].func) in done + {entry.value} {
      if i < |funcs| {
        assert funcs'[i] == funcs[i];
      }
    }
  }

  /** Processing a dequeued value that is not a callable records nothing, and keeps the record state. */
  lemma RecordOther(heap: Heap, root: JsValue, funcs: seq<FunctionInfo>, paths: seq<seq<string>>, done: set<JsValue>,
                    v: JsValue)
    requires FuncsInv(heap, root, funcs, paths, done)
    requires v.Ref? ==> v.id in heap && !heap[v.id].isFunction
    ensures FuncsInv(heap, root, funcs, paths, done + {v})
  {
  }

  /**
   * One pass of the loop of `findFunctions`: the first entry is dequeued,
   * recorded when it is a callable, and its properties enqueued.
   */
  method VisitNext(heap: Heap, root: JsValue, queue0: seq<Entry>, ghost queuePaths0: seq<seq<string>>,
                   visited0: set<JsValue>, ghost done: set<JsValue>,
                   funcs0: seq<FunctionInfo>, ghost paths0: seq<seq<string>>, id0: nat, ghost level0: nat)
    returns (queue: seq<Entry>, ghost queuePaths: seq<seq<string>>, visited: set<JsValue>,
             funcs: seq<FunctionInfo>, ghost paths: seq<seq<string>>, id: nat, ghost level: nat)
    requires Closed(heap) && UniqueNames(heap) && (root.Ref? ==> root.id in heap) && |queue0| > 0 && id0 == |funcs0|
    requires QueueInv(heap, root, queue0, queuePaths0, visited0, done)
    requires FuncsInv(heap, root, funcs0, paths0, done)
    requires forall v :: v in done ==> ChildrenIn(heap, v, visited0)
    requires QueueOrder(queuePaths0, level0) && PathsOrder(paths0, level0)
    ensures queue0[0].value in AllValues(heap, root) && queue0[0].value !in done
    ensures id == |funcs|
    ensures QueueInv(heap, root, queue, queuePaths, visited, done + {queue0[0].value})
    ensures FuncsInv(heap, root, funcs, paths, done + {queue0[0].value})
    ensures forall v :: v in done + {queue0[0].value} ==> ChildrenIn(heap, v, visited)
    ensures QueueOrder(queuePaths, level) && PathsOrder(paths, level)
  {
    var entry := queue0[0];
    ghost var entryPath := queuePaths0[0];
    Dequeue(heap, root, queue0, queuePaths0, visited0, done);
    DequeueOrder(queuePaths0, level0, paths0);
    level := |entryPath|;
    assert entry.value in AllValues(heap, root);
    queue, queuePaths, visited := queue0[1..], queuePaths0[1..], visited0;
    funcs, paths, id := funcs0, paths0, id0;
    if entry.value.Ref? {
      var obj := entry.value.id;
      ResolveInHeap(heap, root, entryPath);
      if heap[obj].isFunction {
        RecordCallable(heap, root, funcs, paths, done, entry, entryPath);
        RecordOrder(paths, level, entryPath);
        funcs := funcs + [FunctionInfo(id, entry.path, obj)];
        paths := paths + [entryPath];
        id := id + 1;
      } else {
        RecordOther(heap, root, funcs, paths, done, entry.value);
      }
      queue, queuePaths, visited :=
        ExpandProperties(heap, root, obj, entry, entryPath, queue, queuePaths, visited, done);
    } else {
      RecordOther(heap, root, funcs, paths, done, entry.value);
      assert ChildrenIn(heap, entry.value, visited);
    }
  }

  /**
   * `findFunctions`: breadth-first walk from `root`. The ghost result gives,
   * for each recorded callable, the property names leading to it; callables
   * are recorded in order of the length of those paths.
   */
  method FindFunctions(heap: Heap, root: JsValue) returns (funcs: seq<FunctionInfo>, ghost paths: seq<seq<string>>)
    requires Closed(heap) && UniqueNames(heap)
    requires root.Ref? ==> root.id in heap
    ensures |paths| == |funcs|
    ensures forall i :: 0 <= i < |funcs| ==> funcs[i].id == i
    ensures forall i :: 0 <= i < |funcs| ==> funcs[i].func in heap && heap[funcs[i].func].isFunction
    ensures forall i, j :: 0 <= i < j < |funcs| ==> funcs[i].func != funcs[j].func
    ensures forall i :: 0 <= i < |funcs| ==>
      AvoidsSkipped(paths[i]) && Resolve(heap, root, paths[i]) == Some(Ref(funcs[i].func)) &&
      funcs[i].name == JoinPath(paths[i])
    ensures forall i, j :: 0 <= i < j < |funcs| ==> |paths[i]| <= |paths[j]|
    ensures forall names ::
      (AvoidsSkipped(names) && Resolve(heap, root, names).Some? &&
       Resolve(heap, root, names).value.Ref? && Resolve(heap, root, names).value.id in heap &&
       heap[Resolve(heap, root, names).value.id].isFunction) ==>
        exists i :: 0 <= i < |funcs| && Ref(funcs[i].func) == Resolve(heap, root, names).value
  {
    funcs := [];
    paths := [];
    var queue := [Entry("", root)];
    var visited := {root};
    ghost var queuePaths: seq<seq<string>> := [[]];
    ghost var done: set<JsValue> := {};
    var id := 0;
    ghost var level := 0;
    WalkStart(heap, root);
    while |queue| > 0
      invariant id == |funcs|
      invariant QueueInv(heap, root, queue, queuePaths, visited, done)
      invariant FuncsInv(heap, root, funcs, paths, done)
      invariant forall v :: v in done ==> ChildrenIn(heap, v, visited)
      invariant QueueOrder(queuePaths, level) && PathsOrder(paths, level)
      decreases |AllValues(heap, root) - done|
    {
      ghost var v := queue[0].value;
      queue, queuePaths, visited, funcs, paths, id, level :=
        VisitNext(heap, root, queue, queuePaths, visited, done, funcs, paths, id, level);
      Progress(AllValues(heap, root), done, v);
      done := done + {v};
    }
    assert visited == done;
    WalkRecordsReachable(heap, root, funcs, done);
  }

  /** The walk starts with the root waiting under the empty path and nothing recorded. */
  lemma WalkStart(heap: Heap, root: JsValue)
    ensures QueueInv(heap, root, [Entry("", root)], [[]], {root}, {})
    ensures FuncsInv(heap, root, [], [], {})
  {
    assert QueueValues([Entry("", root)]) == {root};
  }

  /** Once the processed values are closed under children, every reachable callable is recorded. */
  lemma WalkRecordsReachable(heap: Heap, root: JsValue, funcs: seq<FunctionInfo>, done: set<JsValue>)
    requires root in done && (forall v :: v in done ==> ChildrenIn(heap, v, done))
    requires FuncsRecorded(heap, funcs, done)
    ensures forall names ::
      (AvoidsSkipped(names) && Resolve(heap, root, names).Some? &&
       Resolve(heap, root, names).value.Ref? && Resolve(heap, root, names).value.id in heap &&
       heap[Resolve(heap, root, names).value.id].isFunction) ==>
        exists i :: 0 <= i < |funcs| && Ref(funcs[i].func) == Resolve(heap, root, names).value
  {
    forall names | AvoidsSkipped(names) && Resolve(heap, root, names).Some? &&
      Resolve(heap, root, names).value.Ref? && Resolve(heap, root, names).value.id in heap &&
      heap[Resolve(heap, root, names).value.id].isFunction
      ensures exists i :: 0 <= i < |funcs| && Ref(funcs[i].func) == Resolve(heap, root, names).value
    {
      ClosedSetHoldsReachable(heap, root, done, names);
    }
  }
}
