/**
 * The builders that turn values and calls into JavaScript statements
 * (src/Fuzzer/SynthesisBuilder.cpp, src/Fuzzer/JavaScriptSynthesisBuilder.cpp,
 * src/Fuzzer/NodejsSynthesisBuilder.cpp).
 *
 * The three classes of the inheritance chain are one class here: `nodejs`
 * says whether the Node.js overrides, which write a `require` statement for
 * a name that lives in a module, are in force. The store's function names
 * and the formatting of a `double` are given as functions.
 *
 * A variable is kept as its name; `_synthesisedVariables` maps a value
 * pointer to the index of its variable in `_variables`.
 */
module SynthesisBuilding {
  import opened MachineInts
  import opened Results
  import opened Strings
  import opened FuzzerValue
  import opened JavaScriptText
  import opened SetCounting

  /** The name of the variable a builder creates `i`-th: `_` and the decimal counter. */
  function VarName(i: nat): (name: string)
    ensures |name| >= 2 && name[0] == '_' && name[1..] == NatToString(i)
  {
    "_" + NatToString(i)
  }

  /** The variable names of different counter values are different. */
  lemma VarNamesDistinct(i: nat, j: nat)
    requires i != j
    ensures VarName(i) != VarName(j)
  {
    if VarName(i) == VarName(j) {
      assert VarName(i)[1..] == VarName(j)[1..];
      NatToStringInjective(i, j);
    }
  }

  /** Two lists of variables named by their indices agree on their common part. */
  lemma NamesPrefix(a: seq<string>, b: seq<string>)
    requires |a| <= |b|
    requires forall i :: 0 <= i < |a| ==> a[i] == VarName(i)
    requires forall i :: 0 <= i < |b| ==> b[i] == VarName(i)
    ensures a <= b
  {
    assert a == b[..|a|];
  }

  /** Every pointer inside an array of the heap points into the heap and not at a placeholder. */
  ghost predicate Synthesisable(heap: Heap)
  {
    Closed(heap) &&
    forall r, i :: r in heap && heap[r].ArrayValue? && 0 <= i < |heap[r].elements| ==>
      !heap[heap[r].elements[i]].PlaceholderValue?
  }

  /**
   * The text written for the elements of an array: for each element in
   * order, what synthesising it wrote and then the push of its variable.
   */
  ghost function ArrayBodyText(arrayName: string, chunks: seq<string>, elementNames: seq<string>): string
    requires |chunks| == |elementNames|
  {
    if chunks == [] then ""
    else
      var n := |chunks| - 1;
      ArrayBodyText(arrayName, chunks[..n], elementNames[..n]) + chunks[n] + ArrayPushText(arrayName, elementNames[n])
  }

  /** One more element extends the text of the elements at its end. */
  lemma ArrayBodyTextSnoc(arrayName: string, chunks: seq<string>, elementNames: seq<string>, chunk: string, elementName: string)
    requires |chunks| == |elementNames|
    ensures ArrayBodyText(arrayName, chunks + [chunk], elementNames + [elementName]) ==
            ArrayBodyText(arrayName, chunks, elementNames) + chunk + ArrayPushText(arrayName, elementName)
  {
    assert (chunks + [chunk])[..|chunks|] == chunks;
    assert (elementNames + [elementName])[..|elementNames|] == elementNames;
  }

  /** Concatenation regrouped. */
  lemma Append2<T>(a: seq<T>, b: seq<T>, c: seq<T>)
    ensures a + b + c == a + (b + c)
  {
  }

  /** Concatenation regrouped. */
  lemma Append3<T>(a: seq<T>, b: seq<T>, c: seq<T>, d: seq<T>)
    ensures a + b + c + d == a + (b + c + d)
  {
  }

  class SynthesisBuilder {
    const nodejs: bool
    const formatFloat: u64 -> string
    const functionName: u32 -> string
    var output: string
    var variables: seq<string>
    var synthesised: map<ValueRef, nat>
    var varId: nat
    var imported: set<string>
    /** The modules a `require` statement was written for, in order. */
    ghost var requireLog: seq<string>

    /** A builder with no variables and no output. */
    constructor (nodejs: bool, formatFloat: u64 -> string, functionName: u32 -> string)
      ensures Valid()
      ensures this.nodejs == nodejs && this.formatFloat == formatFloat && this.functionName == functionName
      ensures output == "" && variables == [] && synthesised == map[] && varId == 0 && imported == {}
    {
      this.nodejs := nodejs;
      this.formatFloat := formatFloat;
      this.functionName := functionName;
      output := "";
      variables := [];
      synthesised := map[];
      varId := 0;
      imported := {};
      requireLog := [];
    }

    /**
     * The counter has named every variable so far, each by its index; every
     * synthesised value has a variable; and every module was required once.
     */
    ghost predicate Valid()
      reads this
    {
      NamesValid() && RequiredOnce()
    }

    /** `_variables[i]` is `_i` and `_varId` is the number of variables; memoised indices are in range. */
    ghost predicate NamesValid()
      reads this
    {
      |variables| == varId &&
      (forall i :: 0 <= i < |variables| ==> variables[i] == VarName(i)) &&
      (forall k :: k in synthesised ==> synthesised[k] < varId)
    }

    /** `_imported` is the set of modules required, no module was required twice, and only Node.js requires. */
    ghost predicate RequiredOnce()
      reads this
    {
      (forall i, j :: 0 <= i < j < |requireLog| ==> requireLog[i] != requireLog[j]) &&
      (forall m :: m in imported <==> m in requireLog) &&
      (!nodejs ==> requireLog == [])
    }

    /** The module a Node.js builder requires before using a name; none for the plain JavaScript builder. */
    function ModuleOf(name: string): (m: Option<string>)
      ensures m.Some? <==> nodejs && IsInModule(name)
      ensures m.Some? ==> m.value == GetModuleName(name)
    {
      if nodejs && IsInModule(name) then Some(GetModuleName(name)) else None
    }

    /** The module required before defining a value: that of a function value's name. */
    function ValueModule(v: Value): Option<string>
    {
      if v.FunctionValue? then ModuleOf(functionName(v.funcId)) else None
    }

    /** The `require` statement written for a module, unless it was already imported. */
    static function RequirePrefix(m: Option<string>, imported: set<string>): string
    {
      if m.Some? && m.value !in imported then RequireText(m.value) else ""
    }

    /** The imported modules once `m` is required. */
    static function Imported(m: Option<string>, imported: set<string>): set<string>
    {
      if m.Some? then imported + {m.value} else imported
    }

    /** `GetNextVariableName`: `_` and the counter, which then moves on. */
    method GetNextVariableName() returns (name: string)
      modifies this
      ensures name == VarName(old(varId)) && varId == old(varId) + 1
      ensures output == old(output) && variables == old(variables) && synthesised == old(synthesised)
      ensures imported == old(imported) && requireLog == old(requireLog)
    {
      name := VarName(varId);
      varId := varId + 1;
    }

    /** `CreateVariable`: the variable is appended to `_variables` and returned. */
    method CreateVariable(name: string) returns (v: string)
      modifies this
      ensures v == name && variables == old(variables) + [name]
      ensures output == old(output) && varId == old(varId) && synthesised == old(synthesised)
      ensures imported == old(imported) && requireLog == old(requireLog)
    {
      variables := variables + [name];
      v := name;
    }

    /** `GetSynthesisedVariable`: the variable of a value synthesised before. */
    function GetSynthesisedVariable(r: ValueRef): (name: string)
      requires Valid() && r in synthesised
      reads this
      ensures name == VarName(synthesised[r])
    {
      variables[synthesised[r]]
    }

    /** `SetLastSynthesisedValue`: the value is mapped to the last variable created. */
    method SetLastSynthesisedValue(r: ValueRef)
      requires |variables| >= 1
      modifies this
      ensures variables == old(variables) && synthesised == old(synthesised)[r := |variables| - 1]
      ensures output == old(output) && varId == old(varId)
      ensures imported == old(imported) && requireLog == old(requireLog)
    {
      synthesised := synthesised[r := |variables| - 1];
    }

    /** `WriteRequireStatement`: `let m = require('m');`, written only for a module not yet imported. */
    method WriteRequireStatement(m: string)
      requires nodejs && RequiredOnce()
      modifies this
      ensures RequiredOnce() && m in imported
      ensures m in old(imported) ==> output == old(output) && imported == old(imported) && requireLog == old(requireLog)
      ensures m !in old(imported) ==>
                output == old(output) + RequireText(m) && imported == old(imported) + {m} &&
                requireLog == old(requireLog) + [m]
      ensures variables == old(variables) && varId == old(varId) && synthesised == old(synthesised)
    {
      if m in imported {
        return;
      }
      output := output + RequireText(m);
      imported := imported + {m};
      requireLog := requireLog + [m];
    }

    /** The require a name needs, written once: what `WriteVariableDef` and `WriteFunctionCallStatement` do first. */
    method RequireModuleOf(m: Option<string>)
      requires RequiredOnce() && (m.Some? ==> nodejs)
      modifies this
      ensures RequiredOnce()
      ensures output == old(output) + RequirePrefix(m, old(imported)) && imported == Imported(m, old(imported))
      ensures variables == old(variables) && varId == old(varId) && synthesised == old(synthesised)
    {
      if m.Some? {
        WriteRequireStatement(m.value);
      }
    }

    /**
     * `WriteVariableDef`: `let <name> = <literal>`, after the `require` of
     * the module of a function value's name.
     */
    method WriteVariableDef(varName: string, v: Value)
      requires RequiredOnce() && !v.ArrayValue? && !v.PlaceholderValue?
      modifies this
      ensures RequiredOnce()
      ensures output == old(output) + RequirePrefix(ValueModule(v), old(imported)) +
                        VariableDefText(varName, LiteralText(v, formatFloat, functionName))
      ensures imported == Imported(ValueModule(v), old(imported))
      ensures variables == old(variables) && varId == old(varId) && synthesised == old(synthesised)
    {
      RequireModuleOf(ValueModule(v));
      output := output + VariableDefText(varName, LiteralText(v, formatFloat, functionName));
    }

    /** `WriteEmptyArrayVariableDef`: `let <name> = [];`. */
    method WriteEmptyArrayVariableDef(varName: string)
      modifies this
      ensures output == old(output) + EmptyArrayDefText(varName)
      ensures variables == old(variables) && varId == old(varId) && synthesised == old(synthesised)
      ensures imported == old(imported) && requireLog == old(requireLog)
    {
      output := output + EmptyArrayDefText(varName);
    }

    /** `WriteArrayPushStatement`: `<name>.push(<element>);`. */
    method WriteArrayPushStatement(varName: string, elementVarName: string)
      modifies this
      ensures output == old(output) + ArrayPushText(varName, elementVarName)
      ensures variables == old(variables) && varId == old(varId) && synthesised == old(synthesised)
      ensures imported == old(imported) && requireLog == old(requireLog)
    {
      output := output + ArrayPushText(varName, elementVarName);
    }

    /** `WriteFunctionCallStatement`: the call, after the `require` of the module of the function's name. */
    method WriteFunctionCallStatement(retVarName: string, funcName: string, receiverVarName: string, argVarNames: seq<string>)
      requires RequiredOnce()
      modifies this
      ensures RequiredOnce()
      ensures output == old(output) + RequirePrefix(ModuleOf(funcName), old(imported)) +
                        CallText(retVarName, funcName, receiverVarName, argVarNames)
      ensures imported == Imported(ModuleOf(funcName), old(imported))
      ensures variables == old(variables) && varId == old(varId) && synthesised == old(synthesised)
    {
      RequireModuleOf(ModuleOf(funcName));
      output := output + CallText(retVarName, funcName, receiverVarName, argVarNames);
    }

    /**
     * `SynthesisFunctionCall`: the call is written with a fresh variable for
     * its return value, which is returned. An empty receiver name means no
     * receiver.
     */
    method SynthesisFunctionCall(funcName: string, receiverVarName: string, argVarNames: seq<string>) returns (retVarName: string)
      requires Valid()
      modifies this
      ensures Valid()
      ensures retVarName == VarName(old(varId)) && varId == old(varId) + 1 && retVarName !in old(variables)
      ensures variables == old(variables) + [retVarName] && synthesised == old(synthesised)
      ensures output == old(output) + RequirePrefix(ModuleOf(funcName), old(imported)) +
                        CallText(retVarName, funcName, receiverVarName, argVarNames)
      ensures imported == Imported(ModuleOf(funcName), old(imported))
    {
      NextNameFresh();
      var name := GetNextVariableName();
      WriteFunctionCallStatement(name, funcName, receiverVarName, argVarNames);
      retVarName := CreateVariable(name);
    }

    /** The next variable name is none of the names given so far. */
    lemma NextNameFresh()
      requires NamesValid()
      ensures VarName(varId) !in variables
    {
      forall i | 0 <= i < |variables|
        ensures variables[i] != VarName(varId)
      {
        VarNamesDistinct(i, varId);
      }
    }

    /** A new variable `_n` keeps the names valid when `n` is the count. */
    lemma NamesValidAfterCreate()
      requires |variables| >= 1 && varId == |variables|
      requires forall i :: 0 <= i < |variables| - 1 ==> variables[i] == VarName(i)
      requires variables[|variables| - 1] == VarName(|variables| - 1)
      requires forall k :: k in synthesised ==> synthesised[k] < varId
      ensures NamesValid()
    {
    }

    /**
     * `SynthesisConstant`: the variable of a value. A value synthesised
     * before gives its variable back and nothing is written; any other is
     * defined by `SynthesisNew`. `written` is the text appended; for an
     * array, `chunks[i]` is what the synthesis of element `i` wrote and
     * `elementNames[i]` the variable it gave.
     */
    method SynthesisConstant(heap: Heap, r: ValueRef)
      returns (name: string, ghost written: string, ghost chunks: seq<string>, ghost elementNames: seq<string>)
      requires Valid() && Synthesisable(heap) && r in heap && !heap[r].PlaceholderValue?
      requires synthesised.Keys <= heap.Keys
      modifies this
      ensures Valid() && synthesised.Keys <= heap.Keys
      ensures output == old(output) + written
      ensures r in synthesised && name == VarName(synthesised[r])
      ensures forall k :: k in old(synthesised) ==> k in synthesised && synthesised[k] == old(synthesised)[k]
      ensures old(varId) <= varId && old(imported) <= imported
      ensures r in old(synthesised) ==>
                written == "" && varId == old(varId) && synthesised == old(synthesised) && imported == old(imported)
      ensures r !in old(synthesised) ==> FreshDefinition(heap, r, name, old(varId), old(imported), written, chunks, elementNames)
      decreases |heap.Keys - synthesised.Keys|, 3
    {
      if r in synthesised {
        name := GetSynthesisedVariable(r);
        written, chunks, elementNames := "", [], [];
      } else {
        name, written, chunks, elementNames := SynthesisNew(heap, r);
      }
    }

    /**
     * What defining the value `r` afresh writes, given the counter and the
     * imported modules before: the value gets the variable `_n` of counter
     * `n`; a scalar is written as a definition, after the `require` its
     * name may need; an array as an empty definition followed, element by
     * element in order, by what synthesising the element wrote and a push of
     * its variable.
     */
    ghost predicate FreshDefinition(heap: Heap, r: ValueRef, name: string, n: nat, imported0: set<string>,
                                    written: string, chunks: seq<string>, elementNames: seq<string>)
      requires r in heap && !heap[r].PlaceholderValue?
      reads this
    {
      r in synthesised && synthesised[r] == n && name == VarName(n) &&
      (!heap[r].ArrayValue? ==>
         written == RequirePrefix(ValueModule(heap[r]), imported0) +
                    VariableDefText(name, LiteralText(heap[r], formatFloat, functionName))) &&
      (heap[r].ArrayValue? ==>
         |chunks| == |elementNames| == |heap[r].elements| &&
         (forall i :: 0 <= i < |elementNames| ==>
            heap[r].elements[i] in synthesised && elementNames[i] == VarName(synthesised[heap[r].elements[i]])) &&
         written == EmptyArrayDefText(name) + ArrayBodyText(name, chunks, elementNames))
    }

    /**
     * The part of `SynthesisConstant` for a value not synthesised before: a
     * fresh variable is created and remembered for the value before anything
     * is written, so an array that holds itself pushes its own variable.
     */
    method SynthesisNew(heap: Heap, r: ValueRef)
      returns (name: string, ghost written: string, ghost chunks: seq<string>, ghost elementNames: seq<string>)
      requires Valid() && Synthesisable(heap) && r in heap && !heap[r].PlaceholderValue?
      requires synthesised.Keys <= heap.Keys && r !in synthesised
      modifies this
      ensures Valid() && synthesised.Keys <= heap.Keys
      ensures output == old(output) + written
      ensures forall k :: k in old(synthesised) ==> k in synthesised && synthesised[k] == old(synthesised)[k]
      ensures old(varId) <= varId && old(imported) <= imported && name !in old(variables)
      ensures FreshDefinition(heap, r, name, old(varId), old(imported), written, chunks, elementNames)
      decreases |heap.Keys - synthesised.Keys|, 2
    {
      chunks, elementNames := [], [];
      ghost var before := synthesised.Keys;
      name := NewVariableFor(r);
      var v := heap[r];
      if v.ArrayValue? {
        WriteEmptyArrayVariableDef(name);
        FewerLeft(heap.Keys, before, synthesised.Keys, r);
        ghost var defined := output;
        chunks, elementNames := SynthesisElements(heap, r, name, |heap.Keys - before|);
        written := EmptyArrayDefText(name) + ArrayBodyText(name, chunks, elementNames);
        assert output == old(output) + written by {
          assert defined == old(output) + EmptyArrayDefText(name);
          Append2(old(output), EmptyArrayDefText(name), ArrayBodyText(name, chunks, elementNames));
        }
      } else {
        WriteVariableDef(name, v);
        written := RequirePrefix(ValueModule(v), old(imported)) +
                   VariableDefText(name, LiteralText(v, formatFloat, functionName));
        Append2(old(output), RequirePrefix(ValueModule(v), old(imported)),
                VariableDefText(name, LiteralText(v, formatFloat, functionName)));
      }
    }

    /** The first steps of `SynthesisConstant` for a new value: the next variable, created and remembered for `r`. */
    method NewVariableFor(r: ValueRef) returns (name: string)
      requires Valid()
      modifies this
      ensures Valid() && name == VarName(old(varId)) && varId == old(varId) + 1 && name !in old(variables)
      ensures synthesised == old(synthesised)[r := old(varId)]
      ensures output == old(output) && imported == old(imported) && requireLog == old(requireLog)
    {
      NextNameFresh();
      var varName := GetNextVariableName();
      name := CreateVariable(varName);
      SetLastSynthesisedValue(r);
      NamesValidAfterCreate();
    }

    /**
     * The loop of `SynthesisConstant` over the elements of the array `r`,
     * whose variable is `name`: each element is synthesised and its variable
     * pushed, in order. `bound` exceeds the number of heap values not yet
     * synthesised.
     */
    method SynthesisElements(heap: Heap, r: ValueRef, name: string, ghost bound: nat)
      returns (ghost chunks: seq<string>, ghost elementNames: seq<string>)
      requires Valid() && Synthesisable(heap) && r in heap && heap[r].ArrayValue?
      requires synthesised.Keys <= heap.Keys && |heap.Keys - synthesised.Keys| < bound
      modifies this
      ensures Valid() && synthesised.Keys <= heap.Keys
      ensures forall k :: k in old(synthesised) ==> k in synthesised && synthesised[k] == old(synthesised)[k]
      ensures old(varId) <= varId && old(imported) <= imported
      ensures |chunks| == |elementNames| == |heap[r].elements|
      ensures forall i :: 0 <= i < |elementNames| ==>
                heap[r].elements[i] in synthesised && elementNames[i] == VarName(synthesised[heap[r].elements[i]])
      ensures output == old(output) + ArrayBodyText(name, chunks, elementNames)
      decreases bound, 1
    {
      var elements := heap[r].elements;
      chunks := [];
      elementNames := [];
      for i := 0 to |elements|
        invariant Valid() && synthesised.Keys <= heap.Keys && |heap.Keys - synthesised.Keys| < bound
        invariant forall k :: k in old(synthesised) ==> k in synthesised && synthesised[k] == old(synthesised)[k]
        invariant old(varId) <= varId && old(imported) <= imported
        invariant |chunks| == |elementNames| == i
        invariant forall j :: 0 <= j < i ==>
                    elements[j] in synthesised && elementNames[j] == VarName(synthesised[elements[j]])
        invariant output == old(output) + ArrayBodyText(name, chunks, elementNames)
      {
        ghost var synthBefore := synthesised;
        ghost var outputBefore := output;
        var elementName;
        ghost var elementText;
        elementName, elementText := SynthesisElement(heap, elements[i], name, bound);
        ArrayBodyTextSnoc(name, chunks, elementNames, elementText, elementName);
        Append3(old(output), ArrayBodyText(name, chunks, elementNames), elementText, ArrayPushText(name, elementName));
        ghost var names := elementNames;
        chunks := chunks + [elementText];
        elementNames := elementNames + [elementName];
        forall j | 0 <= j < i + 1
          ensures elements[j] in synthesised && elementNames[j] == VarName(synthesised[elements[j]])
        {
          if j < i {
            assert elements[j] in synthBefore && elementNames[j] == names[j];
          } else {
            assert elementNames[j] == elementName;
          }
        }
      }
    }

    /** One step of the loop of `SynthesisConstant`: the element `e` is synthesised and its variable pushed onto the array `name`. */
    method SynthesisElement(heap: Heap, e: ValueRef, name: string, ghost bound: nat)
      returns (elementName: string, ghost elementText: string)
      requires Valid() && Synthesisable(heap) && e in heap && !heap[e].PlaceholderValue?
      requires synthesised.Keys <= heap.Keys && |heap.Keys - synthesised.Keys| < bound
      modifies this
      ensures Valid() && synthesised.Keys <= heap.Keys && |heap.Keys - synthesised.Keys| < bound
      ensures forall k :: k in old(synthesised) ==> k in synthesised && synthesised[k] == old(synthesised)[k]
      ensures old(varId) <= varId && old(imported) <= imported
      ensures e in synthesised && elementName == VarName(synthesised[e])
      ensures output == old(output) + elementText + ArrayPushText(name, elementName)
      decreases bound, 0
    {
      ghost var synthBefore := synthesised;
      ghost var chunks, elementNames;
      elementName, elementText, chunks, elementNames := SynthesisConstant(heap, e);
      assert synthBefore.Keys <= synthesised.Keys;
      SubsetCardinality(heap.Keys - synthesised.Keys, heap.Keys - synthBefore.Keys);
      WriteArrayPushStatement(name, elementName);
    }
  }
}
