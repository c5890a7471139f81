/**
 * The metadata store of the header-only fuzzer (caf/CAFMeta.hpp): the types
 * and the APIs of the target program, each kept in a list in the order it
 * was added, and found again through maps from ids and names to slots.
 *
 * A `CAFStoreRef` is a store and a slot; the default one has no store and
 * is empty. A store refuses a type or an API whose id or name it already
 * holds and then hands out the empty reference. The id maps are declared
 * with `int` keys while ids are 64-bit, so the key of an id is the id
 * converted to a 32-bit `int`, as the conversion the maps make.
 *
 * The ids themselves come from a counter shared by every object of a kind;
 * the model takes the id of a new object as a parameter.
 */
module CafMeta {
  import opened MachineInts
  import opened Results

  /** The values of `TypeKind`, as the enumeration numbers them. */
  const KindBits: int := 0
  const KindPointer: int := 1
  const KindArray: int := 2
  const KindStruct: int := 3

  /** `toString(TypeKind)`: the name of each of the four kinds, "Unknown" for any other value. */
  function TypeKindName(kind: int): (name: string)
    ensures name == "Unknown" <==> !(0 <= kind < 4)
  {
    if kind == KindBits then "Bits"
    else if kind == KindPointer then "Pointer"
    else if kind == KindArray then "Array"
    else if kind == KindStruct then "Struct"
    else "Unknown"
  }

  /** The kind a name stands for: the inverse of `TypeKindName` on the four kinds. */
  function TypeKindOfName(name: string): (kind: Option<int>)
  {
    if name == "Bits" then Some(KindBits)
    else if name == "Pointer" then Some(KindPointer)
    else if name == "Array" then Some(KindArray)
    else if name == "Struct" then Some(KindStruct)
    else None
  }

  /** Reading a kind's name back gives the kind; "Unknown" stands for no kind. */
  lemma TypeKindNameRoundTrip(kind: int)
    ensures TypeKindOfName(TypeKindName(kind)) == if 0 <= kind < 4 then Some(kind) else None
  {
  }

  /** Different kinds have different names. */
  lemma TypeKindNamesDistinct(a: int, b: int)
    requires 0 <= a < 4 && 0 <= b < 4 && a != b
    ensures TypeKindName(a) != TypeKindName(b)
  {
    TypeKindNameRoundTrip(a);
    TypeKindNameRoundTrip(b);
  }

  /** `toString(ActivatorKind)`: "Constructor" for 0, "Factory" for 1, "Unknown" otherwise. */
  function ActivatorKindName(kind: int): (name: string)
    ensures name == "Unknown" <==> !(0 <= kind < 2)
    ensures 0 <= kind < 2 ==> TypeKindOfName(name) == None
  {
    if kind == 0 then "Constructor" else if kind == 1 then "Factory" else "Unknown"
  }

  /**
   * `CAFStoreRef`: the store owning the pointee and the slot of the pointee
   * in it. The default reference has no store and slot 0.
   */
  datatype StoreRef = StoreRef(store: CAFStore?, slot: nat)
  {
    /** `empty`: the reference has no store. */
    predicate Empty()
    {
      store == null
    }
  }

  /** The default `CAFStoreRef`. */
  function EmptyRef(): (r: StoreRef)
    ensures r.Empty() && r.slot == 0
  {
    StoreRef(null, 0)
  }

  /** A function signature: the return type and the argument types, as references into the store. */
  datatype FunctionSignature = FunctionSignature(returnType: StoreRef, args: seq<StoreRef>)

  /** The four kinds of type, each with its id and what it holds. */
  datatype MetaType =
    | BitsType(id: u64, name: string, size: nat)
    | PointerType(id: u64, pointee: StoreRef)
    | ArrayType(id: u64, length: nat, element: StoreRef)
    | StructType(id: u64, name: string)
  {
    /** `kind`: the `TypeKind` the type was built with. */
    function Kind(): (k: int)
      ensures 0 <= k < 4 && TypeKindName(k) != "Unknown"
    {
      match this
      case BitsType(_, _, _) => KindBits
      case PointerType(_, _) => KindPointer
      case ArrayType(_, _, _) => KindArray
      case StructType(_, _) => KindStruct
    }

    /** The kinds that derive from `NamedType`. */
    predicate Named()
    {
      BitsType? || StructType?
    }
  }

  /** An API of the target program. */
  datatype ApiFunction = ApiFunction(id: u64, name: string, signature: FunctionSignature)

  /** The key an id is stored under: the id converted to a 32-bit `int`. */
  function IdKey(id: u64): (k: i32)
    ensures id < 0x8000_0000 ==> k == id
  {
    ToI32(id)
  }

  /** Ids below 2^31 keep their keys apart. */
  lemma IdKeyInjectiveBelow(a: u64, b: u64)
    requires a < 0x8000_0000 && b < 0x8000_0000 && IdKey(a) == IdKey(b)
    ensures a == b
  {
  }

  /** Ids 2^32 apart share a key, so a store refuses the second though the ids differ. */
  lemma IdKeysCollide(a: u64)
    requires a < 0x1_0000_0000
    ensures IdKey(a) == IdKey(a + 0x1_0000_0000)
  {
    assert (a + 0x1_0000_0000) % 0x1_0000_0000 == a % 0x1_0000_0000;
  }

  /** Every type is found under the key of its id at its own slot, and the map holds nothing else. */
  ghost predicate TypeIdsIndex(types: seq<MetaType>, typeIds: map<i32, nat>)
  {
    (forall s :: 0 <= s < |types| ==> IdKey(types[s].id) in typeIds && typeIds[IdKey(types[s].id)] == s) &&
    (forall k :: k in typeIds ==> typeIds[k] < |types| && IdKey(types[typeIds[k]].id) == k)
  }

  /** Every named type is found under its name at its own slot, and the map holds nothing else. */
  ghost predicate TypeNamesIndex(types: seq<MetaType>, typeNames: map<string, nat>)
  {
    (forall s :: 0 <= s < |types| && types[s].Named() ==> types[s].name in typeNames && typeNames[types[s].name] == s) &&
    (forall n :: n in typeNames ==> typeNames[n] < |types| && types[typeNames[n]].Named() && types[typeNames[n]].name == n)
  }

  /** Every API is found under the key of its id at its own slot, and the map holds nothing else. */
  ghost predicate ApiIdsIndex(apis: seq<ApiFunction>, apiIds: map<i32, nat>)
  {
    (forall s :: 0 <= s < |apis| ==> IdKey(apis[s].id) in apiIds && apiIds[IdKey(apis[s].id)] == s) &&
    (forall k :: k in apiIds ==> apiIds[k] < |apis| && IdKey(apis[apiIds[k]].id) == k)
  }

  /** Every API is found under its name at its own slot, and the map holds nothing else. */
  ghost predicate ApiNamesIndex(apis: seq<ApiFunction>, apiNames: map<string, nat>)
  {
    (forall s :: 0 <= s < |apis| ==> apis[s].name in apiNames && apiNames[apis[s].name] == s) &&
    (forall n :: n in apiNames ==> apiNames[n] < |apis| && apis[apiNames[n]].name == n)
  }

  /** A type whose key is free, put in the next slot and under its key, keeps the id index. */
  lemma TypeIdsAppend(types: seq<MetaType>, typeIds: map<i32, nat>, t: MetaType)
    requires TypeIdsIndex(types, typeIds) && IdKey(t.id) !in typeIds
    ensures TypeIdsIndex(types + [t], typeIds[IdKey(t.id) := |types|])
  {
    var types', typeIds' := types + [t], typeIds[IdKey(t.id) := |types|];
    forall s | 0 <= s < |types'| ensures IdKey(types'[s].id) in typeIds' && typeIds'[IdKey(types'[s].id)] == s {
      if s < |types| {
        assert types'[s] == types[s];
      }
    }
  }

  /** A type whose name, if it has one, is free, put in the next slot and under its name, keeps the name index. */
  lemma TypeNamesAppend(types: seq<MetaType>, typeNames: map<string, nat>, t: MetaType)
    requires TypeNamesIndex(types, typeNames) && (t.Named() ==> t.name !in typeNames)
    ensures TypeNamesIndex(types + [t], if t.Named() then typeNames[t.name := |types|] else typeNames)
  {
    var types' := types + [t];
    var typeNames' := if t.Named() then typeNames[t.name := |types|] else typeNames;
    forall s | 0 <= s < |types'| && types'[s].Named() ensures types'[s].name in typeNames' && typeNames'[types'[s].name] == s {
      if s < |types| {
        assert types'[s] == types[s];
      }
    }
    forall n | n in typeNames' ensures typeNames'[n] < |types'| && types'[typeNames'[n]].Named() && types'[typeNames'[n]].name == n {
      if !(t.Named() && n == t.name) {
        assert types'[typeNames[n]] == types[typeNames[n]];
      }
    }
  }

  /** An API whose key is free, put in the next slot and under its key, keeps the id index. */
  lemma ApiIdsAppend(apis: seq<ApiFunction>, apiIds: map<i32, nat>, f: ApiFunction)
    requires ApiIdsIndex(apis, apiIds) && IdKey(f.id) !in apiIds
    ensures ApiIdsIndex(apis + [f], apiIds[IdKey(f.id) := |apis|])
  {
    var apis', apiIds' := apis + [f], apiIds[IdKey(f.id) := |apis|];
    forall s | 0 <= s < |apis'| ensures IdKey(apis'[s].id) in apiIds' && apiIds'[IdKey(apis'[s].id)] == s {
      if s < |apis| {
        assert apis'[s] == apis[s];
      }
    }
  }

  /** An API whose name is free, put in the next slot and under its name, keeps the name index. */
  lemma ApiNamesAppend(apis: seq<ApiFunction>, apiNames: map<string, nat>, f: ApiFunction)
    requires ApiNamesIndex(apis, apiNames) && f.name !in apiNames
    ensures ApiNamesIndex(apis + [f], apiNames[f.name := |apis|])
  {
    var apis', apiNames' := apis + [f], apiNames[f.name := |apis|];
    forall s | 0 <= s < |apis'| ensures apis'[s].name in apiNames' && apiNames'[apis'[s].name] == s {
      if s < |apis| {
        assert apis'[s] == apis[s];
      }
    }
  }

  class CAFStore {
    var types: seq<MetaType>
    var apis: seq<ApiFunction>
    var typeIds: map<i32, nat>
    var typeNames: map<string, nat>
    var apiIds: map<i32, nat>
    var apiNames: map<string, nat>

    /**
     * The maps index the lists exactly: every type is found under the key
     * of its id, and every named type under its name, at its own slot, and
     * the maps hold nothing else; the same for the APIs.
     */
    ghost predicate Valid()
      reads this
    {
      TypeIdsIndex(types, typeIds) && TypeNamesIndex(types, typeNames) &&
      ApiIdsIndex(apis, apiIds) && ApiNamesIndex(apis, apiNames)
    }

    /** A new store holds no types and no APIs. */
    constructor ()
      ensures Valid() && types == [] && apis == []
    {
      types := [];
      apis := [];
      typeIds := map[];
      typeNames := map[];
      apiIds := map[];
      apiNames := map[];
    }

    /** In a valid store no two types share an id key or a name. */
    lemma TypesUnique()
      requires Valid()
      ensures forall s, t :: 0 <= s < t < |types| ==> IdKey(types[s].id) != IdKey(types[t].id)
      ensures forall s, t :: 0 <= s < t < |types| && types[s].Named() && types[t].Named() ==> types[s].name != types[t].name
    {
    }

    /** In a valid store no two APIs share an id key or a name. */
    lemma ApisUnique()
      requires Valid()
      ensures forall s, t :: 0 <= s < t < |apis| ==> IdKey(apis[s].id) != IdKey(apis[t].id) && apis[s].name != apis[t].name
    {
    }

    /** A type the store can take: neither its id key nor, for a named type, its name is taken. */
    predicate CanAddType(t: MetaType)
      reads this
    {
      IdKey(t.id) !in typeIds && (t.Named() ==> t.name !in typeNames)
    }

    /** `deref` of a type reference: the type in its slot. */
    function TypeAt(r: StoreRef): MetaType
      reads this
      requires r.store == this && r.slot < |types|
    {
      types[r.slot]
    }

    /**
     * `addNamedType` and `addType`: a type whose id key, or name when it has
     * one, is already in the store gives the empty reference and changes
     * nothing; any other is put in the next slot, found under its key and
     * name, and its reference returned.
     */
    method AddType(t: MetaType) returns (r: StoreRef)
      requires Valid()
      modifies this
      ensures Valid()
      ensures r.Empty() <==> !old(CanAddType(t))
      ensures r.Empty() ==>
        r == EmptyRef() && types == old(types) && typeIds == old(typeIds) && typeNames == old(typeNames)
      ensures !r.Empty() ==>
        r == StoreRef(this, old(|types|)) && types == old(types) + [t] &&
        typeIds == old(typeIds)[IdKey(t.id) := old(|types|)] &&
        typeNames == (if t.Named() then old(typeNames)[t.name := old(|types|)] else old(typeNames))
      ensures apis == old(apis) && apiIds == old(apiIds) && apiNames == old(apiNames)
    {
      if IdKey(t.id) in typeIds {
        return EmptyRef();
      }
      if t.Named() && t.name in typeNames {
        return EmptyRef();
      }
      TypeIdsAppend(types, typeIds, t);
      TypeNamesAppend(types, typeNames, t);
      var slot := |types|;
      types := types + [t];
      typeIds := typeIds[IdKey(t.id) := slot];
      if t.Named() {
        typeNames := typeNames[t.name := slot];
      }
      r := StoreRef(this, slot);
    }

    /** `createBitsType`: a bits type, refused when its name is taken. */
    method CreateBitsType(name: string, size: nat, id: u64) returns (r: StoreRef)
      requires Valid()
      modifies this
      ensures Valid() && apis == old(apis)
      ensures r.Empty() <==> name in old(typeNames) || IdKey(id) in old(typeIds)
      ensures r.Empty() ==> types == old(types)
      ensures !r.Empty() ==> r.store == this && r.slot == old(|types|) && types == old(types) + [BitsType(id, name, size)] && TypeAt(r) == BitsType(id, name, size)
    {
      if name in typeNames {
        return EmptyRef();
      }
      r := AddType(BitsType(id, name, size));
    }

    /** `createPointerType`: a pointer type, refused only for a taken id. */
    method CreatePointerType(pointee: StoreRef, id: u64) returns (r: StoreRef)
      requires Valid()
      modifies this
      ensures Valid() && apis == old(apis)
      ensures r.Empty() <==> IdKey(id) in old(typeIds)
      ensures r.Empty() ==> types == old(types)
      ensures !r.Empty() ==> r.store == this && r.slot == old(|types|) && types == old(types) + [PointerType(id, pointee)] && TypeAt(r) == PointerType(id, pointee)
    {
      r := AddType(PointerType(id, pointee));
    }

    /** `createArrayType`: an array type, refused only for a taken id. */
    method CreateArrayType(length: nat, element: StoreRef, id: u64) returns (r: StoreRef)
      requires Valid()
      modifies this
      ensures Valid() && apis == old(apis)
      ensures r.Empty() <==> IdKey(id) in old(typeIds)
      ensures r.Empty() ==> types == old(types)
      ensures !r.Empty() ==> r.store == this && r.slot == old(|types|) && types == old(types) + [ArrayType(id, length, element)] && TypeAt(r) == ArrayType(id, length, element)
    {
      r := AddType(ArrayType(id, length, element));
    }

    /** `createStructType`: a struct type, refused when its name is taken. */
    method CreateStructType(name: string, id: u64) returns (r: StoreRef)
      requires Valid()
      modifies this
      ensures Valid() && apis == old(apis)
      ensures r.Empty() <==> name in old(typeNames) || IdKey(id) in old(typeIds)
      ensures r.Empty() ==> types == old(types)
      ensures !r.Empty() ==> r.store == this && r.slot == old(|types|) && types == old(types) + [StructType(id, name)] && TypeAt(r) == StructType(id, name)
    {
      if name in typeNames {
        return EmptyRef();
      }
      r := AddType(StructType(id, name));
    }

    /**
     * `addApi`: an API whose id key or name is taken gives the empty
     * reference and changes nothing; any other is put in the next slot.
     */
    method AddApi(f: ApiFunction) returns (r: StoreRef)
      requires Valid()
      modifies this
      ensures Valid()
      ensures r.Empty() <==> IdKey(f.id) in old(apiIds) || f.name in old(apiNames)
      ensures r.Empty() ==>
        r == EmptyRef() && apis == old(apis) && apiIds == old(apiIds) && apiNames == old(apiNames)
      ensures !r.Empty() ==>
        r == StoreRef(this, old(|apis|)) && apis == old(apis) + [f] &&
        apiIds == old(apiIds)[IdKey(f.id) := old(|apis|)] && apiNames == old(apiNames)[f.name := old(|apis|)]
      ensures types == old(types) && typeIds == old(typeIds) && typeNames == old(typeNames)
    {
      if IdKey(f.id) in apiIds {
        return EmptyRef();
      }
      if f.name in apiNames {
        return EmptyRef();
      }
      ApiIdsAppend(apis, apiIds, f);
      ApiNamesAppend(apis, apiNames, f);
      var slot := |apis|;
      apis := apis + [f];
      apiIds := apiIds[IdKey(f.id) := slot];
      apiNames := apiNames[f.name := slot];
      r := StoreRef(this, slot);
    }

    /** `createApi`: an API, refused when its name is taken. */
    method CreateApi(name: string, signature: FunctionSignature, id: u64) returns (r: StoreRef)
      requires Valid()
      modifies this
      ensures Valid() && types == old(types)
      ensures r.Empty() <==> name in old(apiNames) || IdKey(id) in old(apiIds)
      ensures r.Empty() ==> apis == old(apis)
      ensures !r.Empty() ==> r.store == this && r.slot == old(|apis|) && apis == old(apis) + [ApiFunction(id, name, signature)]
    {
      if name in apiNames {
        return EmptyRef();
      }
      r := AddApi(ApiFunction(id, name, signature));
    }
  }
}
