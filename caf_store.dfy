/**
 * The API store of the fuzzer (src/Basic/CAFStore.cpp): an ordered list of
 * API functions, each an id and a dotted name. Its JSON form is the array of
 * names that the extraction script dumps; a JSON document is modelled as that
 * array of strings.
 */
module CafStore {
  import opened MachineInts

  /** An API function: its 32-bit id and its name. */
  datatype Function = Function(id: u32, name: string)

  /** What `GetStatistics` reports. */
  datatype Statistics = Statistics(apiFunctionsCount: nat)

  /** The id the JSON constructor gives the function at position `i`: a 32-bit counter. */
  function PositionalId(i: nat): u32
  {
    i % 0x1_0000_0000
  }

  /** The store built from a JSON name list: function `i` has id `i` (mod 2^32) and the `i`-th name. */
  function FromNames(names: seq<string>): (r: seq<Function>)
    ensures |r| == |names|
    ensures forall i :: 0 <= i < |names| ==> r[i] == Function(PositionalId(i), names[i])
  {
    seq(|names|, i requires 0 <= i < |names| => Function(PositionalId(i), names[i]))
  }

  /** The names of the functions, in order. */
  function Names(funcs: seq<Function>): (r: seq<string>)
    ensures |r| == |funcs|
    ensures forall i :: 0 <= i < |funcs| ==> r[i] == funcs[i].name
  {
    seq(|funcs|, i requires 0 <= i < |funcs| => funcs[i].name)
  }

  /** Building a store from a name list and dumping it gives the list back. */
  lemma NamesOfFromNames(names: seq<string>)
    ensures Names(FromNames(names)) == names
  {
  }

  /** A store whose ids are positional survives a dump and a reload unchanged. */
  lemma FromNamesOfNames(funcs: seq<Function>)
    requires forall i :: 0 <= i < |funcs| ==> funcs[i].id == PositionalId(i)
    ensures FromNames(Names(funcs)) == funcs
  {
  }

  class Store {
    var funcs: seq<Function>

    /** Construction from a function list keeps it verbatim. */
    constructor FromFunctions(functions: seq<Function>)
      ensures funcs == functions
    {
      funcs := functions;
    }

    /** Construction from a JSON name list: ids count up from 0. */
    constructor FromJson(json: seq<string>)
      ensures funcs == FromNames(json)
    {
      var fs: seq<Function> := [];
      var id: u32 := 0;
      var i := 0;
      while i < |json|
        invariant 0 <= i <= |json|
        invariant id == PositionalId(i)
        invariant fs == FromNames(json[..i])
      {
        fs := fs + [Function(id, json[i])];
        id := (id + 1) % 0x1_0000_0000;
        i := i + 1;
      }
      assert json[..i] == json;
      funcs := fs;
    }

    /** `GetStatistics`: the number of API functions. */
    function GetStatistics(): (s: Statistics)
      reads this
      ensures s.apiFunctionsCount == |funcs|
    {
      Statistics(|funcs|)
    }

    /** `ToJson`: the names, in order. */
    method ToJson() returns (json: seq<string>)
      ensures json == Names(funcs)
    {
      json := [];
      var i := 0;
      while i < |funcs|
        invariant 0 <= i <= |funcs|
        invariant json == Names(funcs[..i])
      {
        json := json + [funcs[i].name];
        i := i + 1;
      }
      assert funcs[..i] == funcs;
    }
  }
}
