/**
 * The symbol-name processing of the LLVM pass driver
 * (src/LLVMPass/CAFDriver.cpp): stripping the trailing template or function
 * arguments of a demangled name, splitting a qualified name at the `::`
 * separators that are not inside brackets, and telling constructors apart
 * by their last two name components; plus the map helper `insertOrUpdate`.
 *
 * Demangling is a call into a library and is left out: the functions here
 * take the demangled name.
 */
module SymbolNames {
  import opened Results
  import opened Strings

  /**
   * `utils::insertOrUpdate`: a key that is absent is mapped to what the
   * factory makes; a key that is present has its value updated; the other
   * entries stay.
   */
  function InsertOrUpdate<K, V>(m: map<K, V>, key: K, factory: () -> V, updator: V -> V): (r: map<K, V>)
    ensures key in r && r.Keys == m.Keys + {key}
    ensures key !in m ==> r[key] == factory()
    ensures key in m ==> r[key] == updator(m[key])
    ensures forall k :: k in m && k != key ==> r[k] == m[k]
  {
    if key !in m then m[key := factory()] else m[key := updator(m[key])]
  }

  /** How a character moves the bracket counter of `removeArgs`, scanning from the back. */
  function Delta(c: char): int
  {
    if c == ')' || c == '>' then 1 else if c == '(' || c == '<' then -1 else 0
  }

  /** Closing brackets less opening brackets of `()` and `<>` in `s`. */
  function Balance(s: string): int
  {
    if s == [] then 0 else Delta(s[0]) + Balance(s[1..])
  }

  /** The balance of a suffix is that of its first character plus that of the rest. */
  lemma BalanceStep(name: string, k: nat)
    requires k < |name|
    ensures Balance(name[k..]) == Delta(name[k]) + Balance(name[k + 1..])
  {
    assert name[k..][1..] == name[k + 1..];
  }

  /** The last suffix start below `hi` whose brackets balance, if any. */
  function LastBalanced(name: string, hi: nat): (r: Option<nat>)
    requires hi <= |name|
    ensures r.Some? ==> r.value < hi && Balance(name[r.value..]) == 0 &&
                        forall j :: r.value < j < hi ==> Balance(name[j..]) != 0
    ensures r.None? ==> forall j :: 0 <= j < hi ==> Balance(name[j..]) != 0
    decreases hi
  {
    if hi == 0 then None
    else if Balance(name[hi - 1..]) == 0 then Some(hi - 1)
    else LastBalanced(name, hi - 1)
  }

  /** One step down: the suffix at `hi - 1` is the answer when it balances, otherwise the search goes on below it. */
  lemma LastBalancedStep(name: string, hi: nat)
    requires 0 < hi <= |name|
    ensures Balance(name[hi - 1..]) == 0 ==> LastBalanced(name, hi) == Some(hi - 1)
    ensures Balance(name[hi - 1..]) != 0 ==> LastBalanced(name, hi) == LastBalanced(name, hi - 1)
  {
  }

  /** A name ending in `)` or `>`. */
  predicate EndsWithArgs(name: string)
  {
    |name| >= 1 && (name[|name| - 1] == ')' || name[|name| - 1] == '>')
  }

  /**
   * What `removeArgs` computes: for a name ending in a closing bracket, the
   * part before the shortest suffix whose brackets balance; otherwise the
   * name unchanged.
   */
  function RemoveArgsOf(name: string): string
  {
    if !EndsWithArgs(name) then name
    else match LastBalanced(name, |name|)
      case Some(k) => name[..k]
      case None => name
  }

  /**
   * Scanning from the back of a name that ends in a closing bracket, the
   * counter stays positive until it first reaches zero.
   */
  lemma {:induction false} PositiveAbove(name: string, k: nat, j: nat)
    requires EndsWithArgs(name) && k <= j < |name|
    requires forall i :: k <= i < |name| ==> Balance(name[i..]) != 0
    ensures Balance(name[j..]) >= 1
    decreases |name| - j
  {
    BalanceStep(name, j);
    if j == |name| - 1 {
      assert name[j + 1..] == [];
    } else {
      PositiveAbove(name, k, j + 1);
    }
  }

  /**
   * When `removeArgs` strips something, what it strips is the argument list
   * that the final closing bracket closes: it starts at the matching opening
   * bracket, inside which the brackets nest one deeper.
   */
  lemma RemoveArgsStripsGroup(name: string)
    requires EndsWithArgs(name) && LastBalanced(name, |name|).Some?
    ensures var k := LastBalanced(name, |name|).value;
            RemoveArgsOf(name) == name[..k] && k < |name| - 1 &&
            (name[k] == '(' || name[k] == '<') && Balance(name[k + 1..]) == 1 &&
            forall j :: k < j < |name| ==> Balance(name[j..]) >= 1
  {
    var k := LastBalanced(name, |name|).value;
    forall j | k < j < |name|
      ensures Balance(name[j..]) >= 1
    {
      PositiveAbove(name, k + 1, j);
    }
    var last := |name| - 1;
    assert Balance(name[last..]) == 1 by {
      BalanceStep(name, last);
      assert name[last + 1..] == [];
    }
    BalanceStep(name, k);
  }

  /** A name that does not end in a closing bracket is kept. */
  lemma RemoveArgsKeepsPlainName(name: string)
    requires !EndsWithArgs(name)
    ensures RemoveArgsOf(name) == name
  {
  }

  /** `symbol::removeArgs`: the reverse scan with a bracket counter. */
  method RemoveArgs(name: string) returns (r: string)
    ensures r == RemoveArgsOf(name)
  {
    if |name| == 0 {
      return [];
    }
    if name[|name| - 1] != ')' && name[|name| - 1] != '>' {
      return name;
    }
    var counter := 0;
    var k := |name|;
    while k > 0
      invariant 0 <= k <= |name|
      invariant counter == Balance(name[k..])
      invariant LastBalanced(name, |name|) == LastBalanced(name, k)
      decreases k
    {
      k := k - 1;
      BalanceStep(name, k);
      LastBalancedStep(name, k + 1);
      if name[k] == ')' || name[k] == '>' {
        counter := counter + 1;
      } else if name[k] == '(' || name[k] == '<' {
        counter := counter - 1;
      }
      if counter == 0 {
        return name[..k];
      }
    }
    r := name;
  }

  /** Whether a character opens a bracket for `QualifiedName::load`. */
  predicate Opens(c: char)
  {
    c == '(' || c == '<' || c == '[' || c == '{'
  }

  /**
   * Whether a character closes a bracket for `QualifiedName::load`: as
   * written, the test names `)` twice and never `}`; `braceCloses` says
   * whether `}` closes.
   */
  predicate Closes(c: char, braceCloses: bool)
  {
    c == ')' || c == '>' || c == ']' || (braceCloses && c == '}')
  }

  /**
   * Where the component scanned from `right` at bracket depth `depth` ends:
   * at the first `::` met at depth zero, or at the end of the name.
   */
  function ComponentEnd(name: string, right: nat, depth: int, braceCloses: bool): (e: nat)
    requires right <= |name|
    ensures right <= e <= |name|
    ensures e == |name| || (e + 1 < |name| && name[e] == ':' && name[e + 1] == ':')
    decreases |name| - right
  {
    if right == |name| then right
    else if right + 1 < |name| && depth == 0 && name[right] == ':' && name[right + 1] == ':' then right
    else
      var curr := name[right];
      var next := if Opens(curr) then depth + 1 else if Closes(curr, braceCloses) then depth - 1 else depth;
      ComponentEnd(name, right + 1, next, braceCloses)
  }

  /** The components of the name from position `left` on, each ended by a `::` at depth zero or by the end of the name. */
  function Split(name: string, left: nat, braceCloses: bool): seq<string>
    decreases |name| - left
  {
    if left >= |name| then []
    else
      var e := ComponentEnd(name, left, 0, braceCloses);
      [name[left..e]] + Split(name, e + 2, braceCloses)
  }

  /** The components `QualifiedName::load` is evidently meant to produce: every kind of bracket nests. */
  function Components(name: string): seq<string>
  {
    Split(name, 0, true)
  }

  /** The components `QualifiedName::load` produces as written: `}` does not close a bracket. */
  function ComponentsAsWritten(name: string): seq<string>
  {
    Split(name, 0, false)
  }

  /** As written, a `::` after a braced part is never a split point: `{a}::b` is one component. */
  lemma BraceNeverCloses()
    ensures ComponentsAsWritten("{a}::b") == ["{a}::b"]
  {
    var s := "{a}::b";
    // The depth is still 1 when the scan reaches the `::`.
    assert ComponentEnd(s, 6, 1, false) == 6;
    assert ComponentEnd(s, 5, 1, false) == 6;
    assert ComponentEnd(s, 4, 1, false) == 6;
    assert ComponentEnd(s, 3, 1, false) == 6;
    assert ComponentEnd(s, 2, 1, false) == 6;
    assert ComponentEnd(s, 1, 1, false) == 6;
    assert ComponentEnd(s, 0, 0, false) == 6;
    assert s[0..6] == s;
  }

  /** With `}` closing a bracket, `{a}::b` splits into `{a}` and `b`. */
  lemma BraceCloses()
    ensures Components("{a}::b") == ["{a}", "b"]
  {
    var s := "{a}::b";
    // The depth is back to 0 at the `::`.
    assert ComponentEnd(s, 3, 0, true) == 3;
    assert ComponentEnd(s, 2, 1, true) == 3;
    assert ComponentEnd(s, 1, 1, true) == 3;
    assert ComponentEnd(s, 0, 0, true) == 3;
    assert ComponentEnd(s, 5, 0, true) == 6;
    assert Split(s, 5, true) == [s[5..6]];
    assert s[0..3] == "{a}" && s[5..6] == "b";
  }

  /** A component that starts before the end is followed by the components after its `::`. */
  lemma SplitUnfold(name: string, left: nat, braceCloses: bool)
    requires left < |name|
    ensures var e := ComponentEnd(name, left, 0, braceCloses);
            Split(name, left, braceCloses) == [name[left..e]] + Split(name, e + 2, braceCloses)
  {
  }

  /** A name is its part before a `::`, the `::` and its part after. */
  lemma SeparatorSplits(name: string, left: nat, e: nat)
    requires left <= e && e + 1 < |name| && name[e] == ':' && name[e + 1] == ':'
    ensures name[left..] == name[left..e] + "::" + name[e + 2..]
  {
    assert name[e..e + 2] == "::";
    assert name[left..] == name[left..e] + name[e..e + 2] + name[e + 2..];
  }

  /**
   * Joining the components with `::` gives back the name, except that a
   * final `::` at depth zero is dropped.
   */
  lemma {:induction false} SplitJoin(name: string, left: nat, braceCloses: bool)
    requires left <= |name|
    ensures var j := Join(Split(name, left, braceCloses), "::");
            name[left..] == j || name[left..] == j + "::"
    decreases |name| - left
  {
    if left < |name| {
      var e := ComponentEnd(name, left, 0, braceCloses);
      var head := name[left..e];
      var rest := Split(name, e + 2, braceCloses);
      assert Split(name, left, braceCloses) == [head] + rest;
      if e == |name| {
        assert rest == [];
        assert [head] + rest == [head];
      } else if e + 2 == |name| {
        SeparatorSplits(name, left, e);
        assert rest == [];
        assert [head] + rest == [head];
        assert name[e + 2..] == "";
      } else {
        SplitJoinStep(name, left, e, braceCloses);
      }
    }
  }

  /** The step of `SplitJoin` for a component that a `::` ends, with more of the name after it. */
  lemma {:induction false} SplitJoinStep(name: string, left: nat, e: nat, braceCloses: bool)
    requires left < |name| && e == ComponentEnd(name, left, 0, braceCloses) && e + 2 < |name|
    ensures var j := Join(Split(name, left, braceCloses), "::");
            name[left..] == j || name[left..] == j + "::"
    decreases |name| - left, 0
  {
    var head := name[left..e];
    var rest := Split(name, e + 2, braceCloses);
    assert Split(name, left, braceCloses) == [head] + rest;
    SeparatorSplits(name, left, e);
    SplitJoin(name, e + 2, braceCloses);
    assert rest != [];
    JoinCons(head, rest, "::");
    PrefixCases(head, Join(rest, "::"), name[e + 2..]);
  }

  /** Putting the same prefix in front keeps the two possible shapes of the rest. */
  lemma PrefixCases(head: string, j: string, tail: string)
    requires tail == j || tail == j + "::"
    ensures head + "::" + tail == head + "::" + j || head + "::" + tail == (head + "::" + j) + "::"
  {
  }

  /** `QualifiedName`: the components of a qualified name. */
  class QualifiedName {
    var components: seq<string>

    /** `QualifiedName(name)`: the components of `name`. */
    constructor (name: string)
      ensures components == ComponentsAsWritten(name)
    {
      components := [];
      new;
      Load(name);
    }

    /**
     * `load`: the components of `name` are appended, each scanned up to a
     * `::` at bracket depth zero, with the bracket test as written, in
     * which `}` does not close.
     */
    method Load(name: string)
      modifies this
      ensures components == old(components) + ComponentsAsWritten(name)
    {
      var left := 0;
      while left < |name|
        invariant left <= |name| + 2
        invariant old(components) + ComponentsAsWritten(name) == components + Split(name, left, false)
        decreases |name| + 2 - left
      {
        var bracketDepth := 0;
        var right := left;
        while right < |name|
          invariant left <= right <= |name|
          invariant ComponentEnd(name, right, bracketDepth, false) == ComponentEnd(name, left, 0, false)
          decreases |name| - right
        {
          if right + 1 < |name| && bracketDepth == 0 && name[right] == ':' && name[right + 1] == ':' {
            break;
          }
          var curr := name[right];
          right := right + 1;
          if Opens(curr) {
            bracketDepth := bracketDepth + 1;
          } else if Closes(curr, false) {
            bracketDepth := bracketDepth - 1;
          }
        }
        assert right == ComponentEnd(name, left, 0, false);
        SplitUnfold(name, left, false);
        components := components + [name[left..right]];
        left := right + 2;
      }
    }

    /** `size`. */
    function Size(): (n: nat)
      reads this
      ensures n == |components|
    {
      |components|
    }

    /** `operator[]`: a non-negative index counts from the front, a negative one from the back. */
    function At(index: int): (c: string)
      requires -|components| <= index < |components|
      reads this
      ensures index >= 0 ==> c == components[index]
      ensures index < 0 ==> c == components[|components| + index]
    {
      if index >= 0 then components[index] else components[|components| + index]
    }
  }

  /**
   * `isConstructor` on the demangled name of a function: it has at least two
   * components as `load` splits them, and the last one and the one before
   * agree once their arguments are removed.
   */
  method IsConstructor(demangled: string) returns (b: bool)
    ensures b <==> var cs := ComponentsAsWritten(demangled);
                   |cs| >= 2 && RemoveArgsOf(cs[|cs| - 1]) == RemoveArgsOf(cs[|cs| - 2])
  {
    var name := new QualifiedName(demangled);
    if name.Size() < 2 {
      return false;
    }
    var funcNameWithoutArgs := RemoveArgs(name.At(-1));
    var classNameWithoutArgs := RemoveArgs(name.At(-2));
    b := funcNameWithoutArgs == classNameWithoutArgs;
  }
}
