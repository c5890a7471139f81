/**
 * The set of value kinds a function parameter may take
 * (include/Basic/FunctionSignature.h): an 8-bit mask with one bit per kind.
 *
 * The bit of a kind is `1 << ordinal`, computed in `int` and truncated to
 * `uint8_t`; the ninth kind, `Placeholder`, has ordinal 8, so its bit is
 * shifted out and it can never be a member.
 */
module ValueKinds {
  import opened FuzzerValue

  /** The mask bit of a kind: `1 << ordinal` kept to its low 8 bits. */
  function ToRaw(kind: ValueKind): (r: bv8)
    ensures r == 0 <==> kind == Placeholder
    ensures kind != Placeholder ==> r == 1 << Ordinal(kind)
  {
    (((1 as bv16) << Ordinal(kind)) & 0xFF) as bv8
  }

  /** `Has`: the kind's bit is set. */
  predicate HasRaw(raw: bv8, kind: ValueKind)
  {
    raw & ToRaw(kind) != 0
  }

  /** `Add`: the kind's bit is set. */
  function AddRaw(raw: bv8, kind: ValueKind): bv8
  {
    raw | ToRaw(kind)
  }

  /** `Remove`: the kind's bit is cleared. */
  function RemoveRaw(raw: bv8, kind: ValueKind): bv8
  {
    raw & !ToRaw(kind)
  }

  /** Distinct kinds own distinct bits. */
  lemma BitsDisjoint(j: ValueKind, k: ValueKind)
    requires j != k
    ensures ToRaw(j) & ToRaw(k) == 0
  {
    match j
    case Undefined =>
    case Null =>
    case Boolean =>
    case String =>
    case Function =>
    case Integer =>
    case Float =>
    case Array =>
    case Placeholder =>
  }

  /** The empty mask has no members. */
  lemma EmptyHasNothing(kind: ValueKind)
    ensures !HasRaw(0, kind)
  {
  }

  /** A placeholder is never a member, whatever the mask. */
  lemma NeverPlaceholder(raw: bv8)
    ensures !HasRaw(raw, Placeholder)
  {
  }

  /** After `Add(kind)` the members are the old ones plus `kind`, unless it is a placeholder. */
  lemma HasAfterAdd(raw: bv8, kind: ValueKind, j: ValueKind)
    ensures HasRaw(AddRaw(raw, kind), j) <==> HasRaw(raw, j) || (j == kind && kind != Placeholder)
  {
    if j != kind {
      BitsDisjoint(j, kind);
      assert AddRaw(raw, kind) & ToRaw(j) == (raw & ToRaw(j)) | (ToRaw(kind) & ToRaw(j));
    }
  }

  /** After `Remove(kind)` the members are the old ones without `kind`. */
  lemma HasAfterRemove(raw: bv8, kind: ValueKind, j: ValueKind)
    ensures HasRaw(RemoveRaw(raw, kind), j) <==> HasRaw(raw, j) && j != kind
  {
    if j != kind {
      BitsDisjoint(j, kind);
      assert RemoveRaw(raw, kind) & ToRaw(j) == raw & ToRaw(j) & !ToRaw(kind);
    }
  }

  /** The kinds in the order of the kind list. */
  const AllKinds: seq<ValueKind> := [Undefined, Null, Boolean, String, Function, Integer, Float, Array, Placeholder]

  /** The kind list holds every kind. */
  lemma AllKindsComplete(kind: ValueKind)
    ensures kind in AllKinds
  {
  }

  /** A set of value kinds, updated in place. */
  class ValueKindSet {
    var raw: bv8

    /** Membership. */
    predicate Has(kind: ValueKind)
      reads this
    {
      HasRaw(raw, kind)
    }

    /** The empty set. */
    constructor Empty()
      ensures raw == 0
      ensures forall k :: !Has(k)
    {
      raw := 0;
    }

    /** The set of one kind; a placeholder gives the empty set. */
    constructor Single(kind: ValueKind)
      ensures raw == ToRaw(kind)
      ensures forall k :: Has(k) <==> k == kind && kind != Placeholder
    {
      raw := ToRaw(kind);
      new;
      forall k
        ensures Has(k) <==> k == kind && kind != Placeholder
      {
        HasAfterAdd(0, kind, k);
      }
    }

    /** The set of the listed kinds, added one by one. */
    constructor FromKinds(kinds: seq<ValueKind>)
      ensures forall k :: Has(k) <==> k in kinds && k != Placeholder
    {
      raw := 0;
      new;
      var i := 0;
      while i < |kinds|
        invariant i <= |kinds|
        invariant forall k :: Has(k) <==> k in kinds[..i] && k != Placeholder
      {
        Add(kinds[i]);
        assert kinds[..i + 1] == kinds[..i] + [kinds[i]];
        i := i + 1;
      }
      assert kinds[..i] == kinds;
    }

    /** `Add` sets the kind's bit and keeps every other member. */
    method Add(kind: ValueKind)
      modifies this
      ensures raw == AddRaw(old(raw), kind)
      ensures forall k :: Has(k) <==> old(Has(k)) || (k == kind && kind != Placeholder)
    {
      ghost var before := raw;
      raw := raw | ToRaw(kind);
      forall k
        ensures Has(k) <==> HasRaw(before, k) || (k == kind && kind != Placeholder)
      {
        HasAfterAdd(before, kind, k);
      }
    }

    /** `Remove` clears the kind's bit and keeps every other member. */
    method Remove(kind: ValueKind)
      modifies this
      ensures raw == RemoveRaw(old(raw), kind)
      ensures forall k :: Has(k) <==> old(Has(k)) && k != kind
    {
      ghost var before := raw;
      raw := raw & !ToRaw(kind);
      forall k
        ensures Has(k) <==> HasRaw(before, k) && k != kind
      {
        HasAfterRemove(before, kind, k);
      }
    }

    /** `CreateFull`: every kind of the kind list added, then the placeholder removed. */
    static method CreateFull() returns (s: ValueKindSet)
      ensures fresh(s)
      ensures forall k :: s.Has(k) <==> k != Placeholder
    {
      s := new ValueKindSet.FromKinds(AllKinds);
      s.Remove(Placeholder);
      forall k
        ensures s.Has(k) <==> k != Placeholder
      {
        AllKindsComplete(k);
      }
    }
  }
}
