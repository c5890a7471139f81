/**
 * Turning a test case into a program (src/Fuzzer/TestCaseSynthesiser.cpp):
 * the calls are synthesised in order, each after its receiver and its
 * arguments, and the variable holding each call's return value is
 * remembered so that a later placeholder can name it.
 *
 * `std::vector::at` on a placeholder index that names no earlier call
 * throws; here the synthesis then stops with `Err(OutOfRange)`.
 */
module TestCaseSynthesis {
  import opened MachineInts
  import opened Results
  import opened FuzzerValue
  import opened JavaScriptText
  import opened SynthesisBuilding

  /** Every receiver and argument pointer of the test case points into the heap. */
  ghost predicate RefsIn(heap: Heap, tc: TestCase)
  {
    forall j :: 0 <= j < |tc| ==> CallRefsIn(heap, tc[j])
  }

  /** Every receiver and argument pointer of the call points into the heap. */
  ghost predicate CallRefsIn(heap: Heap, c: Call)
  {
    (c.receiver.Some? ==> c.receiver.value in heap) &&
    forall k :: 0 <= k < |c.args| ==> c.args[k] in heap
  }

  /** A value that is a placeholder names one of the first `n` calls. */
  ghost predicate Fits(heap: Heap, a: ValueRef, n: nat)
    requires a in heap
  {
    heap[a].PlaceholderValue? ==> heap[a].index < n
  }

  /** Every placeholder among the call's receiver and arguments names one of the first `n` calls. */
  ghost predicate CallFits(heap: Heap, c: Call, n: nat)
    requires CallRefsIn(heap, c)
  {
    (c.receiver.Some? ==> Fits(heap, c.receiver.value, n)) &&
    forall k :: 0 <= k < |c.args| ==> Fits(heap, c.args[k], n)
  }

  /**
   * Every placeholder of the test case names an earlier call: in call `j`
   * an index below `base + j`, where `base` return variables were known
   * before the first call.
   */
  ghost predicate AllFit(heap: Heap, tc: TestCase, base: nat)
    requires RefsIn(heap, tc)
  {
    forall j :: 0 <= j < |tc| ==> CallFits(heap, tc[j], base + j)
  }

  /**
   * `name` is the variable that refers to the value `a`: the return
   * variable of the call a placeholder names, or the variable it was
   * synthesised into.
   */
  ghost predicate Resolves(heap: Heap, a: ValueRef, name: string, retValVars: seq<string>, synthesised: map<ValueRef, nat>)
    requires a in heap
  {
    if heap[a].PlaceholderValue? then heap[a].index < |retValVars| && name == retValVars[heap[a].index]
    else a in synthesised && name == VarName(synthesised[a])
  }

  /** `names` are the variables, in order, of the values `args`. */
  ghost predicate ResolvesAll(heap: Heap, args: seq<ValueRef>, names: seq<string>, retValVars: seq<string>, synthesised: map<ValueRef, nat>)
    requires forall k :: 0 <= k < |args| ==> args[k] in heap
  {
    |names| == |args| &&
    forall k :: 0 <= k < |args| ==> Resolves(heap, args[k], names[k], retValVars, synthesised)
  }

  /** The memo entries of `before` are all still in `after`, unchanged. */
  ghost predicate Extends(before: map<ValueRef, nat>, after: map<ValueRef, nat>)
  {
    forall k :: k in before ==> k in after && after[k] == before[k]
  }

  /** What a value resolves to stays so while return variables are appended and memo entries added. */
  lemma ResolvesLater(heap: Heap, a: ValueRef, name: string, vars: seq<string>, vars': seq<string>,
                      synth: map<ValueRef, nat>, synth': map<ValueRef, nat>)
    requires a in heap && Resolves(heap, a, name, vars, synth)
    requires vars <= vars' && Extends(synth, synth')
    ensures Resolves(heap, a, name, vars', synth')
  {
  }

  /** The same for a list of values. */
  lemma ResolvesAllLater(heap: Heap, args: seq<ValueRef>, names: seq<string>, vars: seq<string>, vars': seq<string>,
                         synth: map<ValueRef, nat>, synth': map<ValueRef, nat>)
    requires forall k :: 0 <= k < |args| ==> args[k] in heap
    requires ResolvesAll(heap, args, names, vars, synth)
    requires vars <= vars' && Extends(synth, synth')
    ensures ResolvesAll(heap, args, names, vars', synth')
  {
    forall k | 0 <= k < |args|
      ensures Resolves(heap, args[k], names[k], vars', synth')
    {
      ResolvesLater(heap, args[k], names[k], vars, vars', synth, synth');
    }
  }

  /**
   * What was written for one call: the definitions of its values and the
   * `require` its name may need (`prelude`), then the call statement with
   * its return variable, the function's name, the receiver's variable
   * (empty for none) and the arguments' variables.
   */
  datatype CallRecord = CallRecord(prelude: string, retVar: string, funcName: string, receiverName: string, argNames: seq<string>)

  /** The text of the records in order. */
  ghost function Transcript(records: seq<CallRecord>): string
  {
    if records == [] then ""
    else
      var n := |records| - 1;
      var rec := records[n];
      Transcript(records[..n]) + rec.prelude + CallText(rec.retVar, rec.funcName, rec.receiverName, rec.argNames)
  }

  /** One more record extends the transcript at its end. */
  lemma TranscriptSnoc(records: seq<CallRecord>, rec: CallRecord)
    ensures Transcript(records + [rec]) ==
            Transcript(records) + rec.prelude + CallText(rec.retVar, rec.funcName, rec.receiverName, rec.argNames)
  {
    assert (records + [rec])[..|records|] == records;
  }

  class TestCaseSynthesiser {
    const functionName: u32 -> string
    const builder: SynthesisBuilder
    var retValVars: seq<string>

    /** A synthesiser over a builder, with no return variables yet. */
    constructor (functionName: u32 -> string, builder: SynthesisBuilder)
      requires builder.Valid()
      ensures Valid() && this.functionName == functionName && this.builder == builder && retValVars == []
    {
      this.functionName := functionName;
      this.builder := builder;
      retValVars := [];
    }

    /** The builder is valid and every return variable is one of its variables. */
    ghost predicate Valid()
      reads this, builder
    {
      builder.Valid() && forall k :: 0 <= k < |retValVars| ==> retValVars[k] in builder.variables
    }

    /** The variable a value resolves to is never empty, so a call with a receiver is written with `.apply`. */
    lemma ResolvedNameNonEmpty(heap: Heap, a: ValueRef, name: string)
      requires Valid() && a in heap && Resolves(heap, a, name, retValVars, builder.synthesised)
      ensures |name| >= 2 && name[0] == '_'
    {
      if heap[a].PlaceholderValue? {
        var k := heap[a].index;
        var i :| 0 <= i < |builder.variables| && builder.variables[i] == retValVars[k];
      }
    }

    /** `rec` is what was written for the call `c` whose return variable is `retVar`. */
    ghost predicate Describes(heap: Heap, c: Call, rec: CallRecord, retVar: string, vars: seq<string>, synth: map<ValueRef, nat>)
      requires CallRefsIn(heap, c)
    {
      rec.retVar == retVar && rec.funcName == functionName(c.funcId) &&
      (c.receiver.None? ==> rec.receiverName == "") &&
      (c.receiver.Some? ==> Resolves(heap, c.receiver.value, rec.receiverName, vars, synth)) &&
      ResolvesAll(heap, c.args, rec.argNames, vars, synth)
    }

    /** The builder's variables only grow, as the counter does. */
    lemma BuilderGrew(variables0: seq<string>)
      requires builder.Valid() && |variables0| <= |builder.variables|
      requires forall i :: 0 <= i < |variables0| ==> variables0[i] == VarName(i)
      ensures variables0 <= builder.variables
    {
      NamesPrefix(variables0, builder.variables);
    }

    /**
     * `SynthesisValue`: a placeholder gives the return variable of the call
     * it names, which must exist, and writes nothing; any other value is
     * synthesised as a constant.
     */
    method SynthesisValue(heap: Heap, a: ValueRef) returns (res: Result<string, OutOfRange>, ghost written: string)
      requires Valid() && Synthesisable(heap) && a in heap && builder.synthesised.Keys <= heap.Keys
      modifies builder
      ensures Valid() && builder.synthesised.Keys <= heap.Keys
      ensures Extends(old(builder.synthesised), builder.synthesised) && old(builder.variables) <= builder.variables
      ensures builder.output == old(builder.output) + written
      ensures res.Ok? <==> Fits(heap, a, |retValVars|)
      ensures res.Ok? ==> Resolves(heap, a, res.value, retValVars, builder.synthesised)
      ensures heap[a].PlaceholderValue? ==> written == "" && builder.synthesised == old(builder.synthesised)
    {
      var v := heap[a];
      if v.PlaceholderValue? {
        written := "";
        if v.index < |retValVars| {
          res := Ok(retValVars[v.index]);
        } else {
          res := Err(OutOfRange);
        }
      } else {
        ghost var variables0 := builder.variables;
        var name;
        ghost var chunks, elementNames;
        name, written, chunks, elementNames := builder.SynthesisConstant(heap, a);
        BuilderGrew(variables0);
        res := Ok(name);
      }
    }

    /** The arguments of a call, one after the other; the first one that cannot be resolved stops the rest. */
    method SynthesisArgs(heap: Heap, args: seq<ValueRef>) returns (res: Result<seq<string>, OutOfRange>, ghost written: string)
      requires Valid() && Synthesisable(heap) && builder.synthesised.Keys <= heap.Keys
      requires forall k :: 0 <= k < |args| ==> args[k] in heap
      modifies builder
      ensures Valid() && builder.synthesised.Keys <= heap.Keys
      ensures Extends(old(builder.synthesised), builder.synthesised) && old(builder.variables) <= builder.variables
      ensures builder.output == old(builder.output) + written
      ensures res.Ok? <==> forall k :: 0 <= k < |args| ==> Fits(heap, args[k], |retValVars|)
      ensures res.Ok? ==> ResolvesAll(heap, args, res.value, retValVars, builder.synthesised)
    {
      var names: seq<string> := [];
      written := "";
      for i := 0 to |args|
        invariant Valid() && builder.synthesised.Keys <= heap.Keys
        invariant Extends(old(builder.synthesised), builder.synthesised) && old(builder.variables) <= builder.variables
        invariant builder.output == old(builder.output) + written
        invariant forall k :: 0 <= k < i ==> Fits(heap, args[k], |retValVars|)
        invariant ResolvesAll(heap, args[..i], names, retValVars, builder.synthesised)
      {
        ghost var synth0 := builder.synthesised;
        ghost var variables0 := builder.variables;
        var r;
        ghost var valueText;
        r, valueText := SynthesisValue(heap, args[i]);
        if r.Err? {
          res := Err(OutOfRange);
          written := written + valueText;
          return;
        }
        ResolvesAllLater(heap, args[..i], names, retValVars, retValVars, synth0, builder.synthesised);
        assert args[..i + 1] == args[..i] + [args[i]];
        names := names + [r.value];
        written := written + valueText;
      }
      assert args[..|args|] == args;
      res := Ok(names);
    }

    /** The receiver of a call, when it has one; the empty name stands for none. */
    method SynthesisReceiver(heap: Heap, receiver: Option<ValueRef>) returns (res: Result<string, OutOfRange>, ghost written: string)
      requires Valid() && Synthesisable(heap) && builder.synthesised.Keys <= heap.Keys
      requires receiver.Some? ==> receiver.value in heap
      modifies builder
      ensures Valid() && builder.synthesised.Keys <= heap.Keys
      ensures Extends(old(builder.synthesised), builder.synthesised) && old(builder.variables) <= builder.variables
      ensures builder.output == old(builder.output) + written
      ensures res.Ok? <==> (receiver.Some? ==> Fits(heap, receiver.value, |retValVars|))
      ensures res.Ok? && receiver.None? ==> res.value == ""
      ensures res.Ok? && receiver.Some? ==> Resolves(heap, receiver.value, res.value, retValVars, builder.synthesised)
    {
      if receiver.Some? {
        res, written := SynthesisValue(heap, receiver.value);
      } else {
        res, written := Ok(""), "";
      }
    }

    /**
     * The body of the loop of `Synthesis` for one call: the receiver, then
     * the arguments, then the call statement through the builder.
     */
    method SynthesisCall(heap: Heap, c: Call) returns (res: Result<string, OutOfRange>, ghost rec: CallRecord)
      requires Valid() && Synthesisable(heap) && CallRefsIn(heap, c) && builder.synthesised.Keys <= heap.Keys
      modifies builder
      ensures Valid() && builder.synthesised.Keys <= heap.Keys
      ensures Extends(old(builder.synthesised), builder.synthesised) && old(builder.variables) <= builder.variables
      ensures res.Ok? <==> CallFits(heap, c, |retValVars|)
      ensures res.Ok? ==>
                old(builder.varId) < builder.varId && res.value == VarName(builder.varId - 1) &&
                res.value in builder.variables &&
                builder.output == old(builder.output) + rec.prelude +
                                  CallText(rec.retVar, rec.funcName, rec.receiverName, rec.argNames) &&
                Describes(heap, c, rec, res.value, retValVars, builder.synthesised)
    {
      rec := CallRecord("", "", "", "", []);
      var receiver;
      ghost var receiverText;
      receiver, receiverText := SynthesisReceiver(heap, c.receiver);
      if receiver.Err? {
        res := Err(OutOfRange);
        return;
      }
      var receiverName := receiver.value;
      ghost var synth1 := builder.synthesised;
      ghost var output1 := builder.output;
      var args;
      ghost var argsText;
      args, argsText := SynthesisArgs(heap, c.args);
      if args.Err? {
        res := Err(OutOfRange);
        return;
      }
      if c.receiver.Some? {
        ResolvesLater(heap, c.receiver.value, receiverName, retValVars, retValVars, synth1, builder.synthesised);
      }
      var funcName := functionName(c.funcId);
      ghost var output2 := builder.output;
      ghost var imported2 := builder.imported;
      ghost var variables2 := builder.variables;
      var retVar := builder.SynthesisFunctionCall(funcName, receiverName, args.value);
      ghost var prelude := receiverText + argsText + SynthesisBuilder.RequirePrefix(builder.ModuleOf(funcName), imported2);
      rec := CallRecord(prelude, retVar, funcName, receiverName, args.value);
      res := Ok(retVar);
      assert builder.variables == variables2 + [retVar];
      assert output1 == old(builder.output) + receiverText;
      Regroup(old(builder.output), receiverText, argsText, SynthesisBuilder.RequirePrefix(builder.ModuleOf(funcName), imported2),
              CallText(retVar, funcName, receiverName, args.value));
      forall k | 0 <= k < |retValVars|
        ensures retValVars[k] in builder.variables
      {
        var i :| 0 <= i < |old(builder.variables)| && old(builder.variables)[i] == retValVars[k];
        assert builder.variables[i] == retValVars[k];
      }
    }

    /**
     * `Synthesis`: every call in order, each return variable appended to
     * `_retValVars`. The synthesis succeeds exactly when every placeholder
     * names an earlier call (or a return variable known before); then one
     * new, distinct return variable is added per call, in call order, and
     * the builder's text grows by the calls' records and nothing else.
     */
    method Synthesis(heap: Heap, tc: TestCase) returns (res: Result<(), OutOfRange>, ghost records: seq<CallRecord>)
      requires Valid() && Synthesisable(heap) && RefsIn(heap, tc) && builder.synthesised.Keys <= heap.Keys
      modifies this, builder
      ensures Valid()
      ensures res.Ok? <==> AllFit(heap, tc, old(|retValVars|))
      ensures res.Ok? ==>
                |retValVars| == old(|retValVars|) + |tc| && old(retValVars) <= retValVars &&
                |records| == |tc| && builder.output == old(builder.output) + Transcript(records)
      ensures res.Ok? ==> forall j :: 0 <= j < |tc| ==>
                Describes(heap, tc[j], records[j], retValVars[old(|retValVars|) + j], retValVars, builder.synthesised)
      ensures res.Ok? ==> forall j :: old(|retValVars|) <= j < |retValVars| ==> retValVars[j] !in old(builder.variables)
      ensures res.Ok? ==> forall j, j' :: old(|retValVars|) <= j < j' < |retValVars| ==> retValVars[j] != retValVars[j']
    {
      records := [];
      ghost var base := |retValVars|;
      ghost var variables0, varId0 := builder.variables, builder.varId;
      ghost var ids: seq<nat> := [];
      for i := 0 to |tc|
        invariant Valid() && builder.synthesised.Keys <= heap.Keys
        invariant Extends(old(builder.synthesised), builder.synthesised) && old(builder.variables) <= builder.variables
        invariant old(retValVars) <= retValVars && |records| == i && varId0 <= builder.varId
        invariant builder.output == old(builder.output) + Transcript(records)
        invariant Progress(heap, tc, base, varId0, builder.varId, records, ids, retValVars, builder.synthesised)
      {
        var r;
        ghost var rec, id;
        r, rec, id := SynthesisStep(heap, tc, i, base, varId0, records, ids);
        if r.Err? {
          res := Err(OutOfRange);
          return;
        }
        TranscriptSnoc(records, rec);
        Append3(old(builder.output), Transcript(records), rec.prelude, CallText(rec.retVar, rec.funcName, rec.receiverName, rec.argNames));
        ids := ids + [id];
        records := records + [rec];
      }
      res := Ok(());
      ProgressFresh(heap, tc, base, varId0, builder.varId, records, ids, retValVars, builder.synthesised, variables0);
    }

    /** One turn of the loop of `Synthesis`: call `|records|` is synthesised and its return variable appended. */
    method SynthesisStep(heap: Heap, tc: TestCase, i: nat, ghost base: nat, ghost varId0: nat,
                         ghost records: seq<CallRecord>, ghost ids: seq<nat>)
      returns (res: Result<(), OutOfRange>, ghost rec: CallRecord, ghost id: nat)
      requires Valid() && Synthesisable(heap) && RefsIn(heap, tc) && builder.synthesised.Keys <= heap.Keys
      requires i == |records| < |tc| && varId0 <= builder.varId
      requires Progress(heap, tc, base, varId0, builder.varId, records, ids, retValVars, builder.synthesised)
      modifies this, builder
      ensures Valid() && builder.synthesised.Keys <= heap.Keys && varId0 <= builder.varId
      ensures Extends(old(builder.synthesised), builder.synthesised) && old(builder.variables) <= builder.variables
      ensures old(retValVars) <= retValVars
      ensures res.Ok? <==> CallFits(heap, tc[|records|], base + |records|)
      ensures res.Ok? ==>
                builder.output == old(builder.output) + rec.prelude + CallText(rec.retVar, rec.funcName, rec.receiverName, rec.argNames) &&
                Progress(heap, tc, base, varId0, builder.varId, records + [rec], ids + [id], retValVars, builder.synthesised)
    {
      ghost var synth0 := builder.synthesised;
      ghost var varId1 := builder.varId;
      id := 0;
      var r;
      r, rec := SynthesisCall(heap, tc[i]);
      if r.Err? {
        res := Err(OutOfRange);
        return;
      }
      id := builder.varId - 1;
      ProgressStep(heap, tc, base, varId0, varId1, builder.varId, records, ids, retValVars, synth0, builder.synthesised, rec, id);
      retValVars := retValVars + [r.value];
      res := Ok(());
    }

    /**
     * The state of `Synthesis` after the first `|records|` calls: each of
     * them fitted, got the variable `_id` with the ids increasing and new,
     * and is described by its record.
     */
    ghost predicate Progress(heap: Heap, tc: TestCase, base: nat, varId0: nat, varId: nat,
                             records: seq<CallRecord>, ids: seq<nat>, vars: seq<string>, synth: map<ValueRef, nat>)
      requires RefsIn(heap, tc)
    {
      |ids| == |records| <= |tc| && |vars| == base + |records| &&
      (forall j :: 0 <= j < |records| ==> CallFits(heap, tc[j], base + j)) &&
      (forall j :: 0 <= j < |ids| ==> vars[base + j] == VarName(ids[j]) && varId0 <= ids[j] < varId) &&
      (forall j, j' :: 0 <= j < j' < |ids| ==> ids[j] < ids[j']) &&
      (forall j :: 0 <= j < |records| ==> Describes(heap, tc[j], records[j], vars[base + j], vars, synth))
    }

    /** One more call that fits, whose record describes it, keeps the progress. */
    lemma ProgressStep(heap: Heap, tc: TestCase, base: nat, varId0: nat, varId: nat, varId': nat,
                       records: seq<CallRecord>, ids: seq<nat>, vars: seq<string>,
                       synth: map<ValueRef, nat>, synth': map<ValueRef, nat>, rec: CallRecord, id: nat)
      requires RefsIn(heap, tc) && Progress(heap, tc, base, varId0, varId, records, ids, vars, synth)
      requires |records| < |tc| && Extends(synth, synth') && varId0 <= varId <= id < varId'
      requires CallFits(heap, tc[|records|], base + |records|)
      requires Describes(heap, tc[|records|], rec, VarName(id), vars, synth')
      ensures Progress(heap, tc, base, varId0, varId', records + [rec], ids + [id], vars + [VarName(id)], synth')
    {
      var i := |records|;
      var vars' := vars + [VarName(id)];
      var records' := records + [rec];
      var ids' := ids + [id];
      forall j | 0 <= j < i + 1
        ensures CallFits(heap, tc[j], base + j)
        ensures vars'[base + j] == VarName(ids'[j]) && varId0 <= ids'[j] < varId'
      {
        if j < i {
          assert vars'[base + j] == vars[base + j] && ids'[j] == ids[j];
        }
      }
      forall j, j' | 0 <= j < j' < i + 1
        ensures ids'[j] < ids'[j']
      {
        if j' < i {
          assert ids'[j] == ids[j] && ids'[j'] == ids[j'];
        }
      }
      forall j | 0 <= j < i + 1
        ensures Describes(heap, tc[j], records'[j], vars'[base + j], vars', synth')
      {
        var c := tc[j];
        assert CallRefsIn(heap, c);
        if j < i {
          assert vars'[base + j] == vars[base + j] && records'[j] == records[j];
          if c.receiver.Some? {
            ResolvesLater(heap, c.receiver.value, records[j].receiverName, vars, vars', synth, synth');
          }
          ResolvesAllLater(heap, c.args, records[j].argNames, vars, vars', synth, synth');
        } else {
          assert records'[j] == rec && vars'[base + j] == VarName(id);
          if c.receiver.Some? {
            ResolvesLater(heap, c.receiver.value, rec.receiverName, vars, vars', synth', synth');
          }
          ResolvesAllLater(heap, c.args, rec.argNames, vars, vars', synth', synth');
        }
      }
    }

    /** After the loop, the new return variables are new and different from each other. */
    lemma ProgressFresh(heap: Heap, tc: TestCase, base: nat, varId0: nat, varId: nat,
                        records: seq<CallRecord>, ids: seq<nat>, vars: seq<string>, synth: map<ValueRef, nat>,
                        variables0: seq<string>)
      requires RefsIn(heap, tc) && Progress(heap, tc, base, varId0, varId, records, ids, vars, synth)
      requires |variables0| == varId0 && forall i :: 0 <= i < |variables0| ==> variables0[i] == VarName(i)
      ensures forall j :: base <= j < |vars| ==> vars[j] !in variables0
      ensures forall j, j' :: base <= j < j' < |vars| ==> vars[j] != vars[j']
    {
      forall j | base <= j < |vars|
        ensures vars[j] !in variables0
      {
        VarNameNotBefore(variables0, varId0, ids[j - base]);
      }
      forall j, j' | base <= j < j' < |vars|
        ensures vars[j] != vars[j']
      {
        VarNamesDistinct(ids[j - base], ids[j' - base]);
      }
    }
  }

  /** Concatenation regrouped. */
  lemma Regroup(a: string, b: string, c: string, d: string, e: string)
    ensures a + b + c + d + e == a + (b + c + d) + e
  {
  }

  /** A name given after the first `n` variables is none of them. */
  lemma VarNameNotBefore(variables: seq<string>, n: nat, id: nat)
    requires |variables| == n && n <= id
    requires forall i :: 0 <= i < |variables| ==> variables[i] == VarName(i)
    ensures VarName(id) !in variables
  {
    forall i | 0 <= i < |variables|
      ensures variables[i] != VarName(id)
    {
      VarNamesDistinct(i, id);
    }
  }
}
