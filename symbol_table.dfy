/**
 * The symbol table of the LLVM pass (src/LLVMPass/SymbolTable.cpp): the
 * fuzz-target APIs found in a module, deduplicated by name, the constructors
 * registered per type name and the callback candidates; and the names and
 * sizes the pass gives to LLVM's scalar types.
 *
 * An LLVM function is its identity and its name; an LLVM type is the kind
 * its type id says, with an integer's bit width and a struct's name.
 */
module SymbolTables {
  import opened Results
  import opened Strings

  /** An LLVM function: its identity in the module and its name. */
  datatype LlvmFunction = LlvmFunction(id: nat, name: string)

  /** The kinds of LLVM type the pass tells apart. */
  datatype LlvmType =
    | Void
    | Half
    | Float
    | Double
    | X86FP80
    | FP128
    | PPCFP128
    | Integer(bitWidth: nat)
    | Struct(structName: string)
    | Other

  /** The floating-point kinds. */
  predicate IsFloatingPoint(t: LlvmType)
  {
    t.Half? || t.Float? || t.Double? || t.X86FP80? || t.FP128? || t.PPCFP128?
  }

  /** `GetLLVMTypeName`: the name of an LLVM type; empty for a kind without one. */
  function TypeName(t: LlvmType): (name: string)
    ensures t.Integer? ==> |name| >= 2 && name[0] == 'i' && name[1..] == NatToString(t.bitWidth)
    ensures t.Struct? ==> name == t.structName
    ensures t.Other? ==> name == ""
  {
    match t
    case Void => "void"
    case Half => "f16"
    case Float => "f32"
    case Double => "f64"
    case X86FP80 => "f80"
    case FP128 => "f128"
    case PPCFP128 => "f128ppc"
    case Integer(width) => "i" + NatToString(width)
    case Struct(name) => name
    case Other => ""
  }

  /** `GetLLVMTypeSize`: the size of an LLVM type in bytes; 0 for a kind without one. */
  function TypeSize(t: LlvmType): (size: nat)
    ensures t.Integer? ==> 8 * size <= t.bitWidth < 8 * size + 8
    ensures !t.Integer? && !IsFloatingPoint(t) ==> size == 0
  {
    match t
    case Half => 2
    case Float => 4
    case Double => 8
    case X86FP80 => 10
    case FP128 => 16
    case PPCFP128 => 16
    case Integer(width) => width / 8
    case _ => 0
  }

  /** A floating-point type other than the PowerPC one is named `f` and its width in bits. */
  lemma FloatNameIsWidth(t: LlvmType)
    requires IsFloatingPoint(t) && !t.PPCFP128?
    ensures TypeName(t) == "f" + NatToString(8 * TypeSize(t))
  {
    match t
    case Half => assert NatToString(16) == "16";
    case Float => assert NatToString(32) == "32";
    case Double => assert NatToString(64) == "64";
    case X86FP80 => assert NatToString(80) == "80";
    case FP128 => assert NatToString(128) == "128";
  }

  /** The bit width of an integer type can be read back from its name. */
  lemma IntegerNameRoundTrip(width: nat)
    ensures var name := TypeName(Integer(width));
            (forall i :: 1 <= i < |name| ==> IsDigit(name[i])) &&
            ParseDigits(name[1..]) == width
  {
    var name := TypeName(Integer(width));
    assert forall i :: 1 <= i < |name| ==> name[i] == name[1..][i - 1];
    ParseNatToString(width);
  }

  /** Integer types of different widths get different names. */
  lemma IntegerNamesDistinct(a: nat, b: nat)
    requires a != b
    ensures TypeName(Integer(a)) != TypeName(Integer(b))
  {
    if TypeName(Integer(a)) == TypeName(Integer(b)) {
      NatToStringInjective(a, b);
    }
  }

  /** No two functions of the list have the same name. */
  ghost predicate NamesDistinct(fs: seq<LlvmFunction>)
  {
    forall i, j :: 0 <= i < j < |fs| ==> fs[i].name != fs[j].name
  }

  /** The names of the functions of the list. */
  ghost function Names(fs: seq<LlvmFunction>): set<string>
  {
    set f | f in fs :: f.name
  }

  class SymbolTable {
    var apis: seq<LlvmFunction>
    var apiNames: set<string>
    var ctors: map<string, seq<LlvmFunction>>
    var callbacks: seq<LlvmFunction>

    /** An empty table. */
    constructor ()
      ensures Valid() && apis == [] && ctors == map[] && callbacks == []
    {
      apis := [];
      apiNames := {};
      ctors := map[];
      callbacks := [];
    }

    /** `_apiNames` holds exactly the names of `_apis`, and no name occurs twice in `_apis`. */
    ghost predicate Valid()
      reads this
    {
      apiNames == Names(apis) && NamesDistinct(apis)
    }

    /** `clear`: the APIs and the constructors are dropped; the callback candidates stay. */
    method Clear()
      modifies this
      ensures Valid() && apis == [] && ctors == map[] && callbacks == old(callbacks)
    {
      apis := [];
      apiNames := {};
      ctors := map[];
    }

    /** `AddApi`: a function whose name is new is appended; one whose name is present is ignored. */
    method AddApi(f: LlvmFunction)
      requires Valid()
      modifies this
      ensures Valid() && f.name in apiNames
      ensures f.name in old(apiNames) ==> apis == old(apis) && apiNames == old(apiNames)
      ensures f.name !in old(apiNames) ==> apis == old(apis) + [f] && apiNames == old(apiNames) + {f.name}
      ensures ctors == old(ctors) && callbacks == old(callbacks)
    {
      if f.name in apiNames {
        return;
      }
      apis := apis + [f];
      apiNames := apiNames + {f.name};
      assert forall i :: 0 <= i < |apis| - 1 ==> apis[i] in old(apis);
    }

    /** `AddConstructor`: the function is appended to the constructors of the type, even when it is already there. */
    method AddConstructor(typeName: string, f: LlvmFunction)
      modifies this
      ensures ctors == old(ctors)[typeName := (if typeName in old(ctors) then old(ctors)[typeName] else []) + [f]]
      ensures apis == old(apis) && apiNames == old(apiNames) && callbacks == old(callbacks)
    {
      var existing := if typeName in ctors then ctors[typeName] else [];
      ctors := ctors[typeName := existing + [f]];
    }

    /** `AddCallbackFunction`: the candidate is appended. */
    method AddCallbackFunction(f: LlvmFunction)
      modifies this
      ensures callbacks == old(callbacks) + [f]
      ensures apis == old(apis) && apiNames == old(apiNames) && ctors == old(ctors)
    {
      callbacks := callbacks + [f];
    }

    /** `GetConstructors`: the constructors registered for the type, or none (null) for a type never registered. */
    function GetConstructors(typeName: string): (r: Option<seq<LlvmFunction>>)
      reads this
      ensures r.None? <==> typeName !in ctors
      ensures r.Some? ==> r.value == ctors[typeName]
    {
      if typeName in ctors then Some(ctors[typeName]) else None
    }
  }
}
