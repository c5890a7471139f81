/**
 * The optional-value container (include/Infrastructure/Optional.h): a flag
 * saying whether the in-place storage holds an object, and the storage.
 *
 * The storage is modelled by `content`, which is `Some(v)` exactly when the
 * flag is set; reading the storage of an empty container is undefined
 * behaviour in the source and is excluded by the `requires` of `Value`.
 */
module Optionals {
  import opened Results

  /** A container holding at most one value of type `T`. */
  class Optional<T> {
    var content: Option<T>

    /** The default constructor: an empty container. */
    constructor Empty()
      ensures content == None
      ensures !HasValue()
    {
      content := None;
    }

    /** The constructor from a value: the container holds it. */
    constructor Of(value: T)
      ensures content == Some(value)
      ensures HasValue() && Value() == value
    {
      content := Some(value);
    }

    /**
     * Copy construction from a container of the same type. The `enable_if`
     * constructor at lines 39-46 is a template and so never the copy
     * constructor; the member-wise one the compiler declares is chosen, and
     * the copy holds what `another` holds.
     */
    constructor CopyOf(another: Optional<T>)
      ensures content == another.content
      ensures HasValue() <==> another.HasValue()
    {
      content := another.content;
    }

    /** The move constructor: the new container takes what `another` held and leaves it empty. */
    constructor MoveFrom(another: Optional<T>)
      modifies another
      ensures content == old(another.content)
      ensures !another.HasValue()
    {
      content := another.content;
      another.content := None;
    }

    /** `hasValue`, also the conversion to `bool`. */
    predicate HasValue()
      reads this
    {
      content.Some?
    }

    /** `value`: the contained object; the container must hold one. */
    function Value(): (r: T)
      requires HasValue()
      reads this
      ensures content == Some(r)
    {
      content.value
    }

    /** `drain`: the contained object, if any, is destroyed and the container is empty. */
    method Drain()
      modifies this
      ensures content == None
    {
      if content.Some? {
        content := None;
      }
    }

    /** `emplace`: the old object is destroyed and the new one built in place. */
    method Emplace(value: T)
      modifies this
      ensures content == Some(value)
    {
      Drain();
      content := Some(value);
    }

    /** `set`: the same as `emplace` with the value moved in. */
    method Set(value: T)
      modifies this
      ensures content == Some(value)
    {
      Emplace(value);
    }

    /** `take`: the contained object is moved out and the container left empty; it must hold one. */
    method Take() returns (r: T)
      requires HasValue()
      modifies this
      ensures Some(r) == old(content) && content == None
    {
      r := content.value;
      content := None;
    }

    /**
     * Copy assignment between two containers of the same type. The
     * `enable_if` operator at lines 61-68 is a member template, and a
     * template is never the copy-assignment operator, so the compiler still
     * declares the member-wise one and prefers it: the flag and the raw
     * storage are copied. Assigning a container to itself keeps its value.
     */
    method CopyAssign(another: Optional<T>)
      modifies this
      ensures content == old(another.content)
      ensures another != this ==> another.content == old(another.content)
    {
      content := another.content;
    }

    /** Move assignment: the container takes what `another` held and `another` is left empty. */
    method MoveAssign(another: Optional<T>)
      modifies this, another
      ensures another != this ==> content == old(another.content) && another.content == None
      ensures another == this ==> content == None
    {
      Drain();
      if another.HasValue() {
        var v := another.Take();
        Emplace(v);
      }
    }
  }

  /** A container holding `v` that is copy-assigned to itself still holds `v`. */
  method SelfCopyAssignKeepsValue<T>(v: T) returns (after: Option<T>)
    ensures after == Some(v)
  {
    var o := new Optional.Of(v);
    o.CopyAssign(o);
    after := o.content;
  }
}
