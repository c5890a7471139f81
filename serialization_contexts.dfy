/**
 * The bookkeeping of the test-case writer and reader
 * (src/Fuzzer/TestCaseSerializer.cpp, src/Fuzzer/TestCaseDeserializer.cpp).
 *
 * The writer numbers each distinct value it writes and remembers, for each
 * placeholder it meets, which value number the placeholder's call result will
 * get. The reader keeps one slot per value number and remembers which slots
 * belong to placeholders.
 *
 * Values are opaque pointers (`ValuePtr`). Both contexts own their id
 * allocators. The source leaves an allocator's counter uninitialised; the
 * contexts start theirs at 0, the one start at which the writer's value
 * numbers are the reader's slot indexes.
 */
module SerializationContexts {
  import opened Results
  import opened Identity

  /** An opaque, non-null pointer to a value. */
  type ValuePtr = nat

  // ---------------------------------------------------------------------
  // Writer side
  // ---------------------------------------------------------------------

  /**
   * The writer's state: the number of each value seen, the next value
   * number, the value number each placeholder was adjusted to, and the next
   * placeholder index.
   */
  datatype WriterState = WriterState(valueIds: map<ValuePtr, nat>, nextValueId: nat, adjusted: map<nat, nat>, nextPlaceholder: nat)

  /**
   * The numbers are the ones handed out: below the next number and distinct;
   * the placeholders registered are exactly those below the next placeholder
   * index, and each was adjusted to a value number not yet past the next one,
   * later placeholders to later numbers.
   */
  ghost predicate WriterValid(s: WriterState)
  {
    (forall v :: v in s.valueIds ==> s.valueIds[v] < s.nextValueId) &&
    (forall v, w :: v in s.valueIds && w in s.valueIds && v != w ==> s.valueIds[v] != s.valueIds[w]) &&
    (forall p: nat :: p in s.adjusted <==> p < s.nextPlaceholder) &&
    (forall p :: p in s.adjusted ==> s.adjusted[p] <= s.nextValueId) &&
    (forall p, q :: p in s.adjusted && q in s.adjusted && p < q ==> s.adjusted[p] <= s.adjusted[q])
  }

  /** The state of a new writer. */
  function WriterInit(): (s: WriterState)
    ensures WriterValid(s)
  {
    WriterState(map[], 0, map[], 0)
  }

  /** `AddValue`: a value seen before keeps its number; a new one gets the next number. */
  function AddValueF(s: WriterState, v: ValuePtr): (r: WriterState)
    ensures WriterValid(s) ==> WriterValid(r)
  {
    if v in s.valueIds then s
    else s.(valueIds := s.valueIds[v := s.nextValueId], nextValueId := s.nextValueId + 1)
  }

  /** `SkipCurrentIndex`: one value number is used up without a value. */
  function SkipCurrentIndexF(s: WriterState): (r: WriterState)
    ensures WriterValid(s) ==> WriterValid(r)
  {
    s.(nextValueId := s.nextValueId + 1)
  }

  /** `SetPlaceholderIndexAdjustment`: the next placeholder index is mapped to the next value number, which is not used up. */
  function SetPlaceholderIndexAdjustmentF(s: WriterState): (r: WriterState)
    ensures WriterValid(s) ==> WriterValid(r)
  {
    s.(adjusted := s.adjusted[s.nextPlaceholder := s.nextValueId], nextPlaceholder := s.nextPlaceholder + 1)
  }

  /** Adding a value twice is adding it once. */
  lemma AddValueIdempotent(s: WriterState, v: ValuePtr)
    ensures AddValueF(AddValueF(s, v), v) == AddValueF(s, v)
  {
  }

  /**
   * After `AddValue` the value has a number; it is the next number exactly
   * when the value was new, and then no other value has that number.
   */
  lemma AddValueNumbers(s: WriterState, v: ValuePtr)
    requires WriterValid(s)
    ensures var r := AddValueF(s, v);
      v in r.valueIds &&
      (v !in s.valueIds <==> r.nextValueId == s.nextValueId + 1) &&
      (v !in s.valueIds ==> r.valueIds[v] == s.nextValueId && forall w :: w in s.valueIds ==> s.valueIds[w] != r.valueIds[v]) &&
      (forall w :: w in s.valueIds ==> w in r.valueIds && r.valueIds[w] == s.valueIds[w])
  {
  }

  /** A skipped number is never given to a value added afterwards. */
  lemma SkipNeverNumbers(s: WriterState, v: ValuePtr)
    requires WriterValid(s)
    ensures var r := AddValueF(SkipCurrentIndexF(s), v);
      v in r.valueIds && (v !in s.valueIds ==> r.valueIds[v] == s.nextValueId + 1) &&
      forall w :: w in r.valueIds ==> r.valueIds[w] != s.nextValueId
  {
  }

  /**
   * The adjustment of a placeholder is the number the next value added gets:
   * registering consumes no value number.
   */
  lemma AdjustmentIsNextNumber(s: WriterState, v: ValuePtr)
    requires WriterValid(s) && v !in s.valueIds
    ensures var r := AddValueF(SetPlaceholderIndexAdjustmentF(s), v);
      r.adjusted[s.nextPlaceholder] == r.valueIds[v]
  {
  }

  /** `TestCaseSerializationContext`: the writer's maps and its two allocators. */
  class TestCaseSerializationContext {
    var valueIds: map<ValuePtr, nat>
    var adjustedPlaceholderIndexes: map<nat, nat>
    const valueIdAlloc: IncrementIdAllocator
    const placeholderIndexAlloc: IncrementIdAllocator

    /** The state the fields hold. */
    function State(): WriterState
      reads this, valueIdAlloc, placeholderIndexAlloc
    {
      WriterState(valueIds, valueIdAlloc.id, adjustedPlaceholderIndexes, placeholderIndexAlloc.id)
    }

    /** The allocators are two objects and the state is valid. */
    ghost predicate Valid()
      reads this, valueIdAlloc, placeholderIndexAlloc
    {
      valueIdAlloc != placeholderIndexAlloc && WriterValid(State())
    }

    /** A new context has seen nothing. */
    constructor ()
      ensures Valid() && State() == WriterInit()
      ensures fresh(valueIdAlloc) && fresh(placeholderIndexAlloc)
    {
      valueIds := map[];
      adjustedPlaceholderIndexes := map[];
      valueIdAlloc := new IncrementIdAllocator(0);
      placeholderIndexAlloc := new IncrementIdAllocator(0);
    }

    /** `HasValue`: the value has been given a number. */
    predicate HasValue(v: ValuePtr)
      reads this
    {
      v in valueIds
    }

    /** `GetValueIndex`: the value's number; the value must have one. */
    function GetValueIndex(v: ValuePtr): (r: nat)
      requires HasValue(v)
      reads this, valueIdAlloc, placeholderIndexAlloc
      ensures Valid() ==> r < valueIdAlloc.id
    {
      valueIds[v]
    }

    /** `AddValue`. */
    method AddValue(v: ValuePtr)
      requires Valid()
      modifies this, valueIdAlloc
      ensures Valid() && State() == AddValueF(old(State()), v)
    {
      if HasValue(v) {
        return;
      }
      var id := valueIdAlloc.Next();
      valueIds := valueIds[v := id];
    }

    /** `SkipCurrentIndex`. */
    method SkipCurrentIndex()
      requires Valid()
      modifies valueIdAlloc
      ensures Valid() && State() == SkipCurrentIndexF(old(State()))
    {
      var _ := valueIdAlloc.Next();
    }

    /** `SetPlaceholderIndexAdjustment`. */
    method SetPlaceholderIndexAdjustment()
      requires Valid()
      modifies this, placeholderIndexAlloc
      ensures Valid() && State() == SetPlaceholderIndexAdjustmentF(old(State()))
    {
      var placeholderIndex := placeholderIndexAlloc.Next();
      var actualIndex := valueIdAlloc.Peek();
      adjustedPlaceholderIndexes := adjustedPlaceholderIndexes[placeholderIndex := actualIndex];
    }

    /** `GetPlaceholderIndexAdjustment`: the index must have been registered. */
    function GetPlaceholderIndexAdjustment(placeholderIndex: nat): (r: nat)
      requires placeholderIndex in adjustedPlaceholderIndexes
      reads this, valueIdAlloc, placeholderIndexAlloc
      ensures Valid() ==> r <= valueIdAlloc.id && placeholderIndex < placeholderIndexAlloc.id
    {
      adjustedPlaceholderIndexes[placeholderIndex]
    }
  }

  // ---------------------------------------------------------------------
  // Reader side
  // ---------------------------------------------------------------------

  /**
   * The reader's state: one slot per value number, filled or still empty,
   * the next placeholder index, and the placeholder index of each slot
   * reserved for a placeholder.
   */
  datatype ReaderState = ReaderState(values: seq<Option<ValuePtr>>, nextPlaceholder: nat, adjustment: map<nat, nat>)

  /** Reserved slots are at most one past the last slot, and hold distinct placeholder indexes already handed out. */
  ghost predicate ReaderValid(s: ReaderState)
  {
    (forall i :: i in s.adjustment ==> i <= |s.values| && s.adjustment[i] < s.nextPlaceholder) &&
    (forall i, j :: i in s.adjustment && j in s.adjustment && i != j ==> s.adjustment[i] != s.adjustment[j])
  }

  /** The state of a new reader. */
  function ReaderInit(): (s: ReaderState)
    ensures ReaderValid(s)
  {
    ReaderState([], 0, map[])
  }

  /** `AllocValueIndex` and `SkipNextValueIndex`: one more empty slot. */
  function AddSlotF(s: ReaderState): (r: ReaderState)
    ensures ReaderValid(s) ==> ReaderValid(r)
    ensures |r.values| == |s.values| + 1 && r.values[|s.values|] == None
  {
    s.(values := s.values + [None])
  }

  /** `SetValue`: the slot at `index` holds `v`. */
  function SetValueF(s: ReaderState, index: nat, v: ValuePtr): (r: ReaderState)
    requires index < |s.values|
    ensures ReaderValid(s) ==> ReaderValid(r)
    ensures |r.values| == |s.values|
    ensures forall i :: 0 <= i < |r.values| && i != index ==> r.values[i] == s.values[i]
  {
    s.(values := s.values[index := Some(v)])
  }

  /** The error `std::vector::at` throws. */
  datatype OutOfRange = OutOfRange

  /** `GetValue`: the slot at `index`; an index past the slots throws. */
  function GetValueF(s: ReaderState, index: nat): (r: Result<Option<ValuePtr>, OutOfRange>)
    ensures r.Ok? <==> index < |s.values|
  {
    if index < |s.values| then Ok(s.values[index]) else Err(OutOfRange)
  }

  /** `SkipNextPlaceholderIndex`: one placeholder index is used up without a slot. */
  function SkipNextPlaceholderIndexF(s: ReaderState): (r: ReaderState)
    ensures ReaderValid(s) ==> ReaderValid(r)
  {
    s.(nextPlaceholder := s.nextPlaceholder + 1)
  }

  /** `ReservePlaceholderIndex`: the next slot, not yet added, is tied to the next placeholder index. */
  function ReservePlaceholderIndexF(s: ReaderState): (r: ReaderState)
    ensures ReaderValid(s) ==> ReaderValid(r)
  {
    s.(adjustment := s.adjustment[|s.values| := s.nextPlaceholder], nextPlaceholder := s.nextPlaceholder + 1)
  }

  /** Reading a slot just set gives the value set; every other slot reads as before. */
  lemma SetThenGet(s: ReaderState, index: nat, v: ValuePtr, j: nat)
    requires index < |s.values|
    ensures GetValueF(SetValueF(s, index, v), index) == Ok(Some(v))
    ensures j != index ==> GetValueF(SetValueF(s, index, v), j) == GetValueF(s, j)
  {
  }

  /** A new slot is at the old slot count and reads as empty. */
  lemma NewSlotIsEmpty(s: ReaderState)
    ensures GetValueF(AddSlotF(s), |s.values|) == Ok(None)
    ensures forall j: nat :: j < |s.values| ==> GetValueF(AddSlotF(s), j) == GetValueF(s, j)
  {
  }

  /**
   * After a reservation the slot count then current is a placeholder slot
   * whose index is the next placeholder index, and every other slot keeps
   * whether it is one and which.
   */
  lemma ReserveMarksSlot(s: ReaderState, i: nat)
    ensures var r := ReservePlaceholderIndexF(s);
      |s.values| in r.adjustment && r.adjustment[|s.values|] == s.nextPlaceholder &&
      (i != |s.values| ==> (i in r.adjustment <==> i in s.adjustment) && (i in s.adjustment ==> r.adjustment[i] == s.adjustment[i]))
  {
  }

  /** `TestCaseDeserializationContext`: the reader's slots, its reservations and its placeholder allocator. */
  class TestCaseDeserializationContext {
    var values: seq<Option<ValuePtr>>
    var placeholderIndexAdjustment: map<nat, nat>
    const placeholderIndexAlloc: IncrementIdAllocator

    /** The state the fields hold. */
    function State(): ReaderState
      reads this, placeholderIndexAlloc
    {
      ReaderState(values, placeholderIndexAlloc.id, placeholderIndexAdjustment)
    }

    /** The state is valid. */
    ghost predicate Valid()
      reads this, placeholderIndexAlloc
    {
      ReaderValid(State())
    }

    /** A new context has no slots and no reservations. */
    constructor ()
      ensures Valid() && State() == ReaderInit()
      ensures fresh(placeholderIndexAlloc)
    {
      values := [];
      placeholderIndexAdjustment := map[];
      placeholderIndexAlloc := new IncrementIdAllocator(0);
    }

    /** `AllocValueIndex`: the index of a new empty slot, the old slot count. */
    method AllocValueIndex() returns (index: nat)
      requires Valid()
      modifies this
      ensures Valid() && State() == AddSlotF(old(State()))
      ensures index == |old(values)|
    {
      index := |values|;
      values := values + [None];
    }

    /** `SetValue`: the slot must exist. */
    method SetValue(index: nat, v: ValuePtr)
      requires Valid() && index < |values|
      modifies this
      ensures Valid() && State() == SetValueF(old(State()), index, v)
    {
      values := values[index := Some(v)];
    }

    /** `GetValue`. */
    function GetValue(index: nat): (r: Result<Option<ValuePtr>, OutOfRange>)
      reads this, placeholderIndexAlloc
      ensures r.Ok? <==> index < |values|
      ensures r.Ok? ==> r.value == values[index]
    {
      GetValueF(State(), index)
    }

    /** `SkipNextValueIndex`. */
    method SkipNextValueIndex()
      requires Valid()
      modifies this
      ensures Valid() && State() == AddSlotF(old(State()))
    {
      values := values + [None];
    }

    /** `SkipNextPlaceholderIndex`. */
    method SkipNextPlaceholderIndex()
      requires Valid()
      modifies placeholderIndexAlloc
      ensures Valid() && State() == SkipNextPlaceholderIndexF(old(State()))
    {
      var _ := placeholderIndexAlloc.Next();
    }

    /** `ReservePlaceholderIndex`. */
    method ReservePlaceholderIndex()
      requires Valid()
      modifies this, placeholderIndexAlloc
      ensures Valid() && State() == ReservePlaceholderIndexF(old(State()))
    {
      var placeholderIndex := placeholderIndexAlloc.Next();
      var objectPoolIndex := |values|;
      placeholderIndexAdjustment := placeholderIndexAdjustment[objectPoolIndex := placeholderIndex];
    }

    /** `IsPlaceholderIndex`: the slot was reserved for a placeholder. */
    predicate IsPlaceholderIndex(objectPoolIndex: nat)
      reads this
    {
      objectPoolIndex in placeholderIndexAdjustment
    }

    /** `GetPlaceholderIndex`: the placeholder index of a reserved slot; the slot must be one. */
    function GetPlaceholderIndex(objectPoolIndex: nat): (r: nat)
      requires IsPlaceholderIndex(objectPoolIndex)
      reads this, placeholderIndexAlloc
      ensures Valid() ==> r < placeholderIndexAlloc.id
    {
      placeholderIndexAdjustment[objectPoolIndex]
    }
  }
}
