# CAF core, modelled in Dafny

CAF is a fuzzer for the APIs of JavaScript engines and native libraries.
This project models the core of CAF in Dafny and proves properties of that model.

## What the core does

- **API discovery walk** (src/Scripts/ExtractAPI.js). A breadth-first walk goes from the global object over a possibly cyclic object graph.
  - It keeps a visited set and skips property names that must not be followed.
  - It tolerates property reads that throw.
  - It numbers every callable it finds 0..N-1 and names each one by its dotted path.
  - The model proves that every callable reachable without a skipped name is listed once, under a path that resolves to it.
- **Function database of the target runner** (include/Targets/Common/FunctionDatabase.h). Dotted names are resolved one component at a time, and the resolved children are cached.
- **Test-case wire formats**:
  - the binary parser (TestCaseParser.h);
  - the serializer (TestCaseSerializer.h);
  - the legacy header-only serializer (caf/CAFMutator.hpp);
  - their index contexts (TestCaseSerializer.cpp, TestCaseDeserializer.cpp).

  Each format is written as an encoder and a decoder, with round-trip lemmas per value kind, per call and per test case. The parser methods are proved against the decoding functions.
- **Mutations**:
  - sequence mutations: splice, call insertion and call removal, both modern and legacy;
  - argument mutation;
  - bit, byte and arithmetic mutations of a bits buffer, and the strategy set offered for each buffer size.
- **Generators**: the shapes of generated values and test cases, and the corpus and object pools behind them.
- **Program synthesis**:
  - JavaScript string escaping and the emitted statement texts;
  - Node.js `require` deduplication;
  - the memoised constant synthesis;
  - turning a test case into a program in which every placeholder names the return variable of an earlier call.
- **Metadata stores**:
  - the header-only `CAFStore`, with its uniqueness checks;
  - the name-list `CAFStore`;
  - the LLVM pass's symbol table and signature grouper;
  - the extractor's frozen id registries, callback-candidate bookkeeping and type freezing;
  - signature equality in both LLVM components.
- **Infrastructure**:
  - `Optional`;
  - the increment id allocator;
  - the value-kind bitset;
  - the instrumented library's input decoding and object list;
  - symbol-name processing in the LLVM driver;
  - the terminal printer's indentation and colour state machine.

## How the model is built

- Code that computes values becomes datatypes, functions and lemmas.
- Objects whose methods update fields become classes with `modifies` frames.
- Loops become `while` loops with invariants. Long loop bodies are split into one-step methods.
- Random draws, the JavaScript engine, the module loader, the demangler and standard input become parameters. Their ranges are stated in `requires`.
- Machine integers are subset types with explicit wrap-around or truncation where the source relies on it.
- Types and values are trees. For a type reached from its own parts, module CyclicGeneration models, over a graph of type ids, in which order the two generators pool a value and generate its parts.

## Model

| member | source | states |
|---|---|---|
| Identity.IncrementIdAllocator.constructor | include/Infrastructure/Identity.h:16-57 | the allocator starts from a given counter value, since the source leaves `_id` uninitialised |
| Identity.IncrementIdAllocator.Next | include/Infrastructure/Identity.h:34-36 | `next` returns the current id and moves the counter one past it, so each id returned is below every later one |
| Identity.IncrementIdAllocator.Peek | include/Infrastructure/Identity.h:43-45 | `peek` gives the id the next `next` returns and changes nothing |
| Identity.IncrementIdAllocator.Reset | include/Infrastructure/Identity.h:51-53 | after `reset` the next id handed out is 0 |
| Optionals.Optional.Empty | include/Infrastructure/Optional.h:25-27 | the default-constructed container holds nothing |
| Optionals.Optional.Of | include/Infrastructure/Optional.h:34-37 | the container built from a value holds exactly that value |
| Optionals.Optional.CopyOf | include/Infrastructure/Optional.h:39-46 | same-type copy construction, which selects the member-wise copy constructor rather than this template: the copy holds a value exactly when the original does, and the same one |
| Optionals.Optional.MoveFrom | include/Infrastructure/Optional.h:49-55 | the moved-to container takes the value and the moved-from one is left empty |
| Optionals.Optional.Value | include/Infrastructure/Optional.h:143-150 | `value` is only read from a non-empty container and yields the object it holds |
| Optionals.Optional.Drain | include/Infrastructure/Optional.h:119-124 | after `drain` the container is empty, whether or not it held a value |
| Optionals.Optional.Emplace | include/Infrastructure/Optional.h:98-102 | after `emplace` the container holds the new value, whatever it held before |
| Optionals.Optional.Set | include/Infrastructure/Optional.h:110-112 | `set` leaves the container holding the given value |
| Optionals.Optional.Take | include/Infrastructure/Optional.h:131-136 | `take` needs a value, returns it and leaves the container empty |
| Optionals.Optional.CopyAssign | include/Infrastructure/Optional.h:61-68 | same-type copy assignment, which selects the member-wise copy assignment rather than this template: the target ends up with the source's content and a distinct source is unchanged |
| Optionals.Optional.MoveAssign | include/Infrastructure/Optional.h:71-77 | move assignment takes the other container's value and leaves it empty; self move-assignment empties the container |
| Optionals.SelfCopyAssignKeepsValue | include/Infrastructure/Optional.h:61-68 | a container holding a value that is copy-assigned to itself still holds that value |
| ValueKinds.ToRaw | include/Basic/FunctionSignature.h:92-94 | a kind's mask bit is `1 << ordinal` cut to 8 bits: zero exactly for the placeholder, the single bit of the ordinal for every other kind |
| ValueKinds.BitsDisjoint | include/Basic/FunctionSignature.h:92-94 | two different kinds never share a mask bit |
| ValueKinds.EmptyHasNothing | include/Basic/FunctionSignature.h:22-24 | the empty mask has no member |
| ValueKinds.NeverPlaceholder | include/Basic/FunctionSignature.h:54-56 | `Has(Placeholder)` is false whatever the mask |
| ValueKinds.HasAfterAdd | include/Basic/FunctionSignature.h:63-65 | after `Add(kind)` the members are the old ones plus `kind`, unless `kind` is the placeholder |
| ValueKinds.HasAfterRemove | include/Basic/FunctionSignature.h:72-74 | after `Remove(kind)` the members are the old ones without `kind` |
| ValueKinds.AllKindsComplete | include/Basic/ValueKind.h:8-20 | the kind list names every kind |
| ValueKinds.ValueKindSet.Empty | include/Basic/FunctionSignature.h:22-24 | the default set has no member |
| ValueKinds.ValueKindSet.Single | include/Basic/FunctionSignature.h:31-33 | the one-kind set holds exactly that kind, and nothing when it is the placeholder |
| ValueKinds.ValueKindSet.FromKinds | include/Basic/FunctionSignature.h:40-45 | the set built from a list holds exactly the listed kinds other than the placeholder |
| ValueKinds.ValueKindSet.Add | include/Basic/FunctionSignature.h:63-65 | `Add` sets the kind's bit; the members become the old ones plus the kind |
| ValueKinds.ValueKindSet.Remove | include/Basic/FunctionSignature.h:72-74 | `Remove` clears the kind's bit; the members become the old ones without the kind |
| ValueKinds.ValueKindSet.CreateFull | include/Basic/FunctionSignature.h:81-89 | the full set holds every kind except the placeholder |
| Randomness.Random.Next | include/Infrastructure/Random.h:52-56 | an integer draw lies in `[min, max]`, both ends included, and consumes one raw number |
| Randomness.Random.Index | include/Infrastructure/Random.h:183-185 | an index draw for a container of `size` elements lies in `[0, size - 1]` |
| Randomness.Random.WithProbability | include/Infrastructure/Random.h:160-169 | a probability draw consumes one raw number and may come out either way |
| Randomness.Random.NextBuffer | include/Infrastructure/Random.h:83-93 | a buffer draw yields exactly `size` bytes |
| MachineInts.LittleEndianRoundTrip | include/Fuzzer/TestCaseSerializer.h:49-54 | a number that fits in `n` bytes, written least significant byte first, reads back as the same number |
| MachineInts.ToLittleEndianRoundTrip | include/Targets/Common/TestCaseParser.h:63-74 | `n` bytes read as a little-endian number and written back give the same bytes |
| Strings.NatToString | src/Fuzzer/SynthesisBuilder.cpp:60-64 | `std::to_string` of a counter: a non-empty string of decimal digits with no leading zero |
| Strings.ParseNatToString | src/Fuzzer/SynthesisBuilder.cpp:60-64 | the decimal string of a number reads back as that number |
| Strings.NatToStringInjective | src/Fuzzer/SynthesisBuilder.cpp:60-64 | different counter values give different decimal strings |
| CallSequences.SpliceF | src/Fuzzer/TestCaseMutator.cpp:32-48 | a splice at `k` is as long as the source; position `i` holds the previous call below `k` and the source call from `k` on |
| CallSequences.InsertCallF | src/Fuzzer/TestCaseMutator.cpp:50-62 | an insertion is one call longer, has the new call at the index, and keeps every other call in its order |
| CallSequences.RemoveCallF | src/Fuzzer/TestCaseMutator.cpp:64-83 | a removal is one call shorter and keeps every call but the dropped one in its order |
| CallSequences.RemoveAfterInsert | src/Fuzzer/TestCaseMutator.cpp:50-83 | removing the call just inserted gives the test case back |
| CallSequences.InsertAfterRemove | src/Fuzzer/TestCaseMutator.cpp:50-83 | putting a removed call back at its index gives the test case back |
| CallSequences.SpliceEnds | src/Fuzzer/TestCaseMutator.cpp:32-48 | splicing at 0 gives the source; splicing equally long test cases at their length gives the previous one |
| LegacyCorpus.SelectAsWritten | caf/CAFMutator.hpp:76-79 | `select` as written with a `random_index` draw reads an element exactly when the draw is below the size |
| LegacyCorpus.SelectReadsPastEnd | caf/CAFMutator.hpp:60-63 | `random_index` as written can draw the size itself, so `select` can read one past the end of every container |
| LegacyCorpus.IndexDrawsAreWrittenLessEnd | caf/CAFMutator.hpp:60-63 | the intended index draws are exactly the written ones except the size itself |
| LegacyCorpus.Select | caf/CAFMutator.hpp:76-79 | `select` with an intended index draw yields an element of the container, the same one the written `select` reads |
| LegacyCorpus.ObjectPool.constructor | caf/CAFMutator.hpp:104-165 | a new pool holds no value |
| LegacyCorpus.ObjectPool.Create | caf/CAFMutator.hpp:157-162 | `create` appends exactly one value and returns the position of that value, the last one |
| LegacyCorpus.Corpus.constructor | caf/CAFMutator.hpp:238-330 | a new corpus has its store, no pools and no test cases |
| LegacyCorpus.Corpus.CreateTestCase | caf/CAFMutator.hpp:289-293 | `createTestCase` appends an empty test case and returns the reference index size - 1, which names it |
| LegacyCorpus.Corpus.AddFunctionCall | caf/CAFMutator.hpp:705-708 | `addFunctionCall` appends the call to that one test case; nothing else changes |
| LegacyCorpus.Corpus.GetObjectPool | caf/CAFMutator.hpp:302-309 | `getObjectPool` gives the pool of the type id, or null exactly when there is none |
| LegacyCorpus.Corpus.GetOrCreateObjectPool | caf/CAFMutator.hpp:318-326 | `getOrCreateObjectPool` returns the kept pool unchanged, or keeps and returns a new empty one that is kept from then on, so a second request returns the same pool; the test cases are untouched |
| LegacyMutation.CopyCalls | caf/CAFMutator.hpp:908-913 | the copying loops append `calls[from..to]` to the target test case in order, and change nothing else |
| LegacyMutation.Splice | caf/CAFMutator.hpp:900-916 | the source index is drawn from `[0, n]` for `n` test cases; the draw `n` reads past the corpus and is reported as undefined with the corpus unchanged; any other draw appends one test case, `previous[0..k)` followed by `source[k..)` with `k` from `[0, min(lengths)]`, and returns its index |
| LegacyMutation.InsertCall | caf/CAFMutator.hpp:1042-1054 | `insertCall` appends one test case, the previous one with the generated call at the drawn index, and returns its index |
| LegacyMutation.LastIndex | caf/CAFMutator.hpp:1065 | `previousSequenceLen - 1` in `size_t`: the length less one, and 2^64 - 1 for an empty test case |
| LegacyMutation.RemoveCall | caf/CAFMutator.hpp:1056-1075 | on one call it returns `previous` and leaves the empty created test case behind; on an empty test case the wrapped draw 0 yields the empty test case and any other draw is reported as undefined; otherwise it appends the previous test case without the call at the drawn index and returns its index |
| Corpora.Corpus.constructor | include/Fuzzer/Corpus.h:103-106 | a new corpus has no pools, no placeholder pool and no test cases |
| Corpora.Corpus.GetObjectPool | src/Fuzzer/Corpus.cpp:10-17 | `GetObjectPool` gives the pool of the type id, and null exactly when the corpus has none |
| Corpora.Corpus.GetOrCreateObjectPool | src/Fuzzer/Corpus.cpp:19-28 | `GetOrCreateObjectPool` leaves an existing pool as it is and otherwise adds an empty one; nothing else changes |
| Corpora.Corpus.GetPlaceholderObjectPool | src/Fuzzer/Corpus.cpp:30-35 | the placeholder pool is created empty on first use and kept as it is afterwards |
| Corpora.Corpus.CreateValue | include/Fuzzer/ObjectPool.h:43-50 | `CreateValue` appends exactly one value to that pool and returns its position |
| Corpora.Corpus.CreatePlaceholderValue | include/Fuzzer/ObjectPool.h:43-50 | a value created in the placeholder pool is appended to it and nothing else changes |
| Corpora.Corpus.CreateTestCase | include/Fuzzer/Corpus.h:155-159 | `CreateTestCase` appends an empty test case and returns the index size - 1, which names it |
| Corpora.Corpus.AddFunctionCall | include/Fuzzer/TestCase.h:29-31 | `AddFunctionCall` appends the call to that test case only |
| TestCaseMutation.CopyCalls | src/Fuzzer/TestCaseMutator.cpp:40-45 | the copying loops append `calls[from..to]` to the target test case in order and change no pool |
| TestCaseMutation.Splice | src/Fuzzer/TestCaseMutator.cpp:32-48 | `Splice` appends exactly one test case, `previous[0..k)` followed by `source[k..)`, and returns its index |
| TestCaseMutation.IndexBound | include/Infrastructure/Random.h:171-185 | `Index(c)` draws from `[0, c.size() - 1]` in `size_t`: the last index of a non-empty container, and 2^64 - 1 for an empty one |
| TestCaseMutation.IndexDrawnInBounds | include/Infrastructure/Random.h:171-185 | an index `Index` draws lies inside the container exactly when the container is not empty |
| TestCaseMutation.InsertCall | src/Fuzzer/TestCaseMutator.cpp:50-62 | `InsertCall` appends the previous test case with the generated call at the drawn index and completes; on an empty test case the wrapped draw 0 yields the call alone, and any other draw is reported undefined with the empty created test case appended |
| TestCaseMutation.RemoveCall | src/Fuzzer/TestCaseMutator.cpp:64-83 | `RemoveCall` on one call returns `previous` and leaves the empty created test case behind; on an empty test case the wrapped draw 0 yields the empty test case and any other draw is reported undefined; otherwise it appends the previous test case without the call at `drop` and returns its index |
| TestCaseMutation.MutateValueF | src/Fuzzer/TestCaseMutator.cpp:247-306 | `MutateValue` dispatches on the kind, bits through the as-written `FlipBits`, and the mutated value has the kind of the original; an aggregate or placeholder (which aborts), an empty array and a zero-byte bits value (both undefined) are kept as they are |
| TestCaseMutation.MutatePreservesFits | src/Fuzzer/TestCaseMutator.cpp:148-285 | a mutated value still fits its type: bits keep their size, arrays their length, structs their argument count, pointers a fitting pointee |
| TestCaseMutation.MutateTouchesOne | src/Fuzzer/TestCaseMutator.cpp:247-285 | an array or struct mutation changes only the chosen element or argument |
| TestCaseMutation.MutateValue | src/Fuzzer/TestCaseMutator.cpp:247-306 | the dispatching method computes the specified mutated value, with the bits mutation done in a copied buffer, and reports `OutcomeOf`: aborted at an aggregate or placeholder (`CAF_UNREACHABLE`), undefined at an empty array or a zero-byte bits value, done otherwise |
| TestCaseMutation.ZeroByteMutationUndefined | src/Fuzzer/TestCaseMutator.cpp:107-109 | a bit flip drawn for a zero-byte bits value applies but is undefined, and the model keeps the value |
| TestCaseMutation.UnmutableValues | src/Fuzzer/TestCaseMutator.cpp:246-306 | every choice applies to an aggregate or a placeholder and aborts, keeping the value; an empty array admits exactly the indexes up to 2^64 - 1, each undefined, keeping the array |
| TestCaseMutation.MutateCallF | src/Fuzzer/TestCaseMutator.cpp:320-324 | the mutated call keeps its function id and arity and differs only in the chosen argument |
| TestCaseMutation.MutateArgumentF | src/Fuzzer/TestCaseMutator.cpp:308-331 | the intended argument mutation keeps every call but the chosen one, which becomes its mutated copy |
| TestCaseMutation.MutateArgumentDropsCall | src/Fuzzer/TestCaseMutator.cpp:308-331 | as written, the result is the test case without the chosen call: one call shorter than intended |
| TestCaseMutation.MutateArgumentEmptiesSingleCall | src/Fuzzer/TestCaseMutator.cpp:308-331 | on a one-call test case with one bits argument the written result has no call, while the intended one keeps the mutated call |
| TestCaseMutation.MutateArgumentAsWritten | src/Fuzzer/TestCaseMutator.cpp:308-331 | as written: a call index past the end of an empty test case is undefined and leaves the empty created test case; a call without arguments returns `previous` and leaves the prefix copy behind; otherwise the appended test case is prefix followed by suffix, and the outcome is the argument mutation's |
| TestCaseMutation.MutateArgument | src/Fuzzer/TestCaseMutator.cpp:308-331 | corrected: the appended test case is prefix, mutated call, suffix; a call without arguments still returns `previous`; an empty test case and the argument's mutation end as in the as-written member |
| TestCaseMutation.MutateLength | src/Fuzzer/TestCaseMutator.cpp:14-105 | a mutation that does not give `previous` back yields a test case as long as the source (splice), one longer (insert), one shorter (remove), and, as written, one shorter for an argument mutation too; on an empty test case a removal, an argument mutation and an insertion past the end give the empty test case |
| TestCaseMutation.Mutate | src/Fuzzer/TestCaseMutator.cpp:14-30 | `Mutate` and `MutateSequence` apply the drawn strategy, the argument mutation as written, on any test case and any value: either `previous` is returned, or the new test case is appended and its index returned, with the outcome of `StrategyOutcome` |
| BitsMutation.XorByte | src/Fuzzer/TestCaseMutator.cpp:116 | the exclusive or of two bytes has a bit set exactly where the operands differ |
| BitsMutation.XorInto | src/Fuzzer/TestCaseMutator.cpp:109 | a byte XORed with an `int` mask and stored back keeps exactly the low 8 bits of the exclusive or |
| BitsMutation.BufferBitsDetermine | src/Fuzzer/TestCaseMutator.cpp:107-110 | two buffers of one length with the same bits are equal |
| BitsMutation.FlipBitsAsWrittenF | src/Fuzzer/TestCaseMutator.cpp:107-110 | `FlipBits` as written changes only byte `offset / 8`; mask bits shifted past bit 7 are lost |
| BitsMutation.FlipBitsF | src/Fuzzer/TestCaseMutator.cpp:107-110 | the intended bit flip keeps the buffer length |
| BitsMutation.FlipBitsFlips | src/Fuzzer/TestCaseMutator.cpp:107-110 | after the intended flip a buffer bit changes exactly when it is one of the `width` bits from `offset` |
| BitsMutation.FlipBitsInvolution | src/Fuzzer/TestCaseMutator.cpp:107-110 | flipping the same bits twice gives the buffer back |
| BitsMutation.FlipBitsAcrossBytes | src/Fuzzer/TestCaseMutator.cpp:108-109 | on two zero bytes with offset 7 and width 2 the written code flips only bit 7 and leaves bit 8 clear; the intended flip sets it |
| BitsMutation.FlipBitsAsWritten | src/Fuzzer/TestCaseMutator.cpp:107-110 | the in-place method computes the as-written flip |
| BitsMutation.FlipBits | src/Fuzzer/TestCaseMutator.cpp:107-110 | the corrected in-place method flips exactly the `width` bits from `offset`, carrying into the next byte |
| BitsMutation.FlipBytesF | src/Fuzzer/TestCaseMutator.cpp:112-127 | `FlipBytes` keeps the length and every byte outside the `width` bytes from `offset` |
| BitsMutation.FlipBytesInverts | src/Fuzzer/TestCaseMutator.cpp:114-123 | inside the window each byte `b` becomes `255 - b` |
| BitsMutation.FlipBytesInvolution | src/Fuzzer/TestCaseMutator.cpp:112-127 | inverting the same bytes twice gives the buffer back |
| BitsMutation.FlipBytes | src/Fuzzer/TestCaseMutator.cpp:112-127 | the in-place method stores the inverted integer in the window, for width 1, 2 or 4 |
| BitsMutation.ArithF | src/Fuzzer/TestCaseMutator.cpp:129-146 | `Arith` keeps the buffer length |
| BitsMutation.ArithWindow | src/Fuzzer/TestCaseMutator.cpp:133-145 | the window afterwards holds the old little-endian integer plus `delta`, wrapped modulo `256^width`; every other byte is unchanged |
| BitsMutation.ArithInverse | src/Fuzzer/TestCaseMutator.cpp:129-146 | adding `-delta` after `delta` at the same offset gives the buffer back |
| BitsMutation.Store | src/Fuzzer/TestCaseMutator.cpp:119-122 | a multi-byte store through a cast pointer replaces exactly those bytes of the buffer |
| BitsMutation.Arith | src/Fuzzer/TestCaseMutator.cpp:129-146 | the in-place method, with `delta` drawn from `[-35, 35]`, computes `ArithF` |
| BitsMutation.ValidStrategies | src/Fuzzer/TestCaseMutator.cpp:165-179 | 5 strategies are offered to a bits value of one byte, 7 from two bytes, 9 from four |
| BitsMutation.ValidStrategiesFit | src/Fuzzer/TestCaseMutator.cpp:165-179 | for a non-empty value a strategy is offered exactly when the value has the bytes it works on |
| BitsMutation.MutateBitsF | src/Fuzzer/TestCaseMutator.cpp:148-222 | the mutated copy of a bits value, with the as-written bit flip, has the size of the original |
| BitsMutation.OfferedHaveOffsets | src/Fuzzer/TestCaseMutator.cpp:165-179 | every offered strategy has an offset to draw from |
| BitsMutation.MutateBitsLocal | src/Fuzzer/TestCaseMutator.cpp:148-222 | every strategy leaves the bytes outside its window as they were; a bit flip changes byte `offset / 8` only |
| BitsMutation.MutateBitsValue | src/Fuzzer/TestCaseMutator.cpp:148-222 | the method applies the chosen strategy to a copy of the data, the bit flips by the as-written in-place `FlipBits`; on a zero-byte value, where every drawn offset lies outside the buffer, it reports `defined` false and keeps the data |
| BitsMutation.DrawBound | src/Fuzzer/TestCaseMutator.cpp:107-130 | the upper end of the offset draw is `size * 8 - width` or `size - width` taken in `size_t`: below 2^64, and no larger than the difference when that is not negative |
| BitsMutation.DrawnFitsExactlyWhenNonEmpty | src/Fuzzer/TestCaseMutator.cpp:107-179 | for an offered strategy, a drawn offset lies inside the value if and only if the value has a byte |
| BitsMutation.EmptyValueOffersUnfittable | src/Fuzzer/TestCaseMutator.cpp:165-171 | a zero-byte value is offered five strategies, each draws up to 2^64 - 1, and none has an offset inside the value |
| FuzzerValue.Ordinal | include/Fuzzer/Value.h:30-34 | each kind's enumerator value is below the number of kinds |
| FuzzerValue.KindOfOrdinal | include/Fuzzer/Value.h:30-34 | a byte names a kind exactly when it is below the number of kinds, and then the kind whose enumerator it is |
| FuzzerValue.KindOfOrdinalRoundTrip | include/Fuzzer/Value.h:30-34 | decoding a kind's enumerator value gives the kind back |
| FuzzerValue.KindChecks | include/Fuzzer/Value.h:58-63 | each `Is<kind>` check holds exactly when the value was built with that kind |
| FuzzerValue.PlaceholderIndex | include/Fuzzer/Value.h:392-405 | a placeholder has the placeholder kind and gives back the call index it was built with |
| FuzzerValue.ArrayValueObject.constructor | include/Fuzzer/Value.h:318-320 | a new array has no elements |
| FuzzerValue.ArrayValueObject.AsValue | include/Fuzzer/Value.h:310-380 | an array object denotes an array-kind value with its elements |
| FuzzerValue.ArrayValueObject.Push | include/Fuzzer/Value.h:344-346 | `Push` adds exactly one element, at the back |
| FuzzerValue.ArrayValueObject.GetElement | include/Fuzzer/Value.h:354 | `GetElement` yields the element at an index below the size and throws `out_of_range` otherwise |
| FuzzerValue.ArrayValueObject.SetElement | include/Fuzzer/Value.h:362-364 | `SetElement` replaces exactly the element at an index below the size, keeping the others; any other index throws and changes nothing |
| FuzzerValue.FunctionCall.constructor | include/Fuzzer/FunctionCall.h:28-30 | a new call has its function id, no arguments and no receiver |
| FuzzerValue.FunctionCall.Snapshot | include/Fuzzer/FunctionCall.h:18-121 | the call as stored in a test case has the call's id, receiver and arguments |
| FuzzerValue.FunctionCall.SetThis | include/Fuzzer/FunctionCall.h:51-53 | `SetThis` stores the receiver and changes no argument; `HasThis` then holds exactly when it is not null |
| FuzzerValue.FunctionCall.PushArg | include/Fuzzer/FunctionCall.h:100 | `PushArg` adds one argument at the back |
| FuzzerValue.FunctionCall.GetArg | include/Fuzzer/FunctionCall.h:83 | `GetArg` yields the argument at an index below the count and throws `out_of_range` otherwise |
| FuzzerValue.FunctionCall.SetArg | include/Fuzzer/FunctionCall.h:91-93 | `SetArg` replaces exactly the argument at an index below the count; any other index throws and changes nothing |
| FuzzerValue.FunctionCall.RemoveArg | include/Fuzzer/FunctionCall.h:107 | `RemoveArg` erases the argument at the index and shifts the later ones down by one |
| TestCaseGeneration.PlaceholderCandidates | src/Fuzzer/TestCaseGenerator.cpp:137-146 | at most one candidate per earlier call |
| TestCaseGeneration.PlaceholderCandidatesSpec | src/Fuzzer/TestCaseGenerator.cpp:137-146 | an index is a candidate exactly when it is an earlier call whose return type is the argument's type; the candidates are in increasing order |
| TestCaseGeneration.TestCaseGenerator.constructor | include/Fuzzer/TestCaseGenerator.h:100-105 | the generator works on a corpus whose store gives the types, the callback candidates and the API functions, with every pool fitting its type |
| TestCaseGeneration.TestCaseGenerator.PoolFor | src/Fuzzer/Corpus.cpp:19-28 | `GetOrCreateObjectPool` on the generator's corpus touches only that type's pool and keeps every pool fitting |
| TestCaseGeneration.TestCaseGenerator.Enter | include/Fuzzer/ObjectPool.h:43-50 | a created value is appended to its type's pool and every pool keeps fitting |
| TestCaseGeneration.TestCaseGenerator.GenerateNewBitsType | src/Fuzzer/TestCaseGenerator.cpp:23-33 | a non-empty bits pool gives one of its values and changes no pool; an empty one gets a single new value of `size` bytes |
| TestCaseGeneration.TestCaseGenerator.GenerateNewPointerType | src/Fuzzer/TestCaseGenerator.cpp:35-40 | a new pointer fits its type, is appended to the pointer type's pool, and only pools of types it reaches change; for a type not reached from its own parts (see Left out) |
| TestCaseGeneration.TestCaseGenerator.GenerateNewArrayType | src/Fuzzer/TestCaseGenerator.cpp:42-51 | a new array has exactly `size` generated elements and is appended to the array type's pool |
| TestCaseGeneration.TestCaseGenerator.GenerateNewStructType | src/Fuzzer/TestCaseGenerator.cpp:53-67 | a new struct is built by a constructor of its type, with one argument per parameter after the first; for a type not reached from its own parts (see Left out) |
| TestCaseGeneration.TestCaseGenerator.GenerateNewFunctionPointerType | src/Fuzzer/TestCaseGenerator.cpp:69-80 | a new function pointer points at one of the callback candidates of its signature |
| TestCaseGeneration.TestCaseGenerator.GenerateNewAggregateType | src/Fuzzer/TestCaseGenerator.cpp:82-91 | a new aggregate has one generated value per field; for a type not reached from its own parts (see Left out) |
| TestCaseGeneration.TestCaseGenerator.GenerateNewValue | src/Fuzzer/TestCaseGenerator.cpp:93-117 | a new value of the type's kind fits the type; only a bits type with a non-empty pool reuses a pooled value |
| TestCaseGeneration.TestCaseGenerator.GenerateValue | src/Fuzzer/TestCaseGenerator.cpp:119-131 | the value fits its type and ends up in its pool: drawn from the pool, or new and appended; an empty pool always gets a new value |
| TestCaseGeneration.TestCaseGenerator.GenerateValueOrPlaceholder | src/Fuzzer/TestCaseGenerator.cpp:133-157 | a placeholder names an earlier call returning the argument's type and goes into the placeholder pool; without such a call the value is a new one of the type |
| TestCaseGeneration.TestCaseGenerator.GenerateCall | src/Fuzzer/TestCaseGenerator.cpp:159-168 | a generated call calls an API of the store with one fitting argument per parameter |
| TestCaseGeneration.TestCaseGenerator.GenerateTestCase | src/Fuzzer/TestCaseGenerator.cpp:170-180 | exactly one test case of 1 to `maxCalls` fitting calls is appended, and its index returned; earlier test cases are unchanged |
| ValueGeneration.SeededGrows | src/Fuzzer/ValueGenerator.cpp:19-27 | pools that only grow keep every bits type of a tree drawable |
| ValueGeneration.ChildReady | src/Fuzzer/ValueGenerator.cpp:29-61 | the types a generable, drawable type is built from are themselves generable and drawable |
| ValueGeneration.ValueGenerator.constructor | include/Fuzzer/ValueGenerator.h:29-32 | the generator works on a corpus whose store gives the types, the callback candidates and the API functions, with every pool fitting its type |
| ValueGeneration.ValueGenerator.PoolFor | src/Fuzzer/Corpus.cpp:19-28 | `GetOrCreateObjectPool` touches only that type's pool, keeps every pool fitting and removes no value |
| ValueGeneration.ValueGenerator.Enter | include/Fuzzer/ObjectPool.h:43-50 | a created value is appended to its type's pool and every pool keeps fitting |
| ValueGeneration.ValueGenerator.GenerateNewBitsType | src/Fuzzer/ValueGenerator.cpp:19-27 | a bits type without a pool gives null; with a pool, a value drawn from it; no pool changes |
| ValueGeneration.ValueGenerator.GenerateNewPointerType | src/Fuzzer/ValueGenerator.cpp:29-33 | the pointee is generated first, then the new pointer is appended to the pointer type's pool; for a type not reached from its own parts (see Left out) |
| ValueGeneration.ValueGenerator.GenerateNewArrayType | src/Fuzzer/ValueGenerator.cpp:35-44 | `size` elements are generated, then the array is appended to its pool |
| ValueGeneration.ValueGenerator.GenerateNewStructType | src/Fuzzer/ValueGenerator.cpp:46-61 | a constructor of the type is drawn and an argument generated for each parameter after the first, then the struct is appended to its pool; for a type not reached from its own parts (see Left out) |
| ValueGeneration.ValueGenerator.GenerateNewFunctionPointerType | src/Fuzzer/ValueGenerator.cpp:63-74 | a new function pointer points at a callback candidate of its signature and is appended to its pool |
| ValueGeneration.ValueGenerator.GenerateNewValue | src/Fuzzer/ValueGenerator.cpp:76-92 | a bits value comes from the type's pool and changes nothing; any other kind is new and appended to its pool |
| ValueGeneration.ValueGenerator.GenerateValue | src/Fuzzer/ValueGenerator.cpp:94-119 | the value fits its type and ends up in its pool: from an empty pool a new one, otherwise a pooled one or a new one |
| ValueGeneration.ValueGenerator.GenerateCall | src/Fuzzer/ValueGenerator.cpp:121-130 | a generated call calls an API of the store with one fitting argument per parameter |
| CyclicGeneration.PartList | src/Fuzzer/TestCaseGenerator.cpp:35-91 | the parts a new value is built from, in generation order, are parts of its type |
| CyclicGeneration.PartListInGraph | src/Fuzzer/TestCaseGenerator.cpp:35-91 | in a well-formed type graph every part of a type is a type of the graph |
| CyclicGeneration.ChildrenFirstNeverFinishes | src/Fuzzer/ValueGenerator.cpp:29-61 | with parts generated before the value is pooled, a list node from an empty corpus never returns, however many nested calls are allowed and whichever constructor is drawn |
| CyclicGeneration.PoolFirstFinishes | src/Fuzzer/TestCaseGenerator.cpp:35-91 | with the value pooled before its parts, the generation of any type of a well-formed graph returns within one nested call more than there are types without a value, having pooled the type and only types of the graph |
| CyclicGeneration.PoolFirstEachFinishes | src/Fuzzer/TestCaseGenerator.cpp:53-67 | the same for the parts generated one after the other, each seeing the values the earlier ones pooled |
| CyclicGeneration.ListNodePoolFirst | src/Fuzzer/TestCaseGenerator.cpp:35-67 | on the list node the test-case generator returns within three nested calls, with the node and its pointer type pooled |
| CafStore.FromNames | src/Basic/CAFStore.cpp:11-17 | the store built from a JSON name list has one function per name, the `i`-th with id `i` (a 32-bit counter) and the `i`-th name |
| CafStore.Names | src/Basic/CAFStore.cpp:25-31 | the dumped list has one name per function, in store order |
| CafStore.NamesOfFromNames | src/Basic/CAFStore.cpp:11-31 | loading a name list and dumping it gives the list back |
| CafStore.FromNamesOfNames | src/Basic/CAFStore.cpp:11-31 | a store whose ids are positional survives a dump and a reload unchanged |
| CafStore.Store.FromFunctions | src/Basic/CAFStore.cpp:7-9 | construction from a function list keeps the list as it is |
| CafStore.Store.FromJson | src/Basic/CAFStore.cpp:11-17 | the JSON constructor's loop builds `FromNames` of the list, with ids counting up from 0 |
| CafStore.Store.GetStatistics | src/Basic/CAFStore.cpp:19-23 | the statistics report the number of API functions |
| CafStore.Store.ToJson | src/Basic/CAFStore.cpp:25-31 | `ToJson` yields the names of the functions, in order |
| LLVMPassSignature.SameSignatureIsEquality | src/LLVMPass/LLVMFunctionSignature.cpp:28-45 | the element-wise comparison holds exactly when the two signatures are the same value |
| LLVMPassSignature.SameSignatureEquivalence | src/LLVMPass/LLVMFunctionSignature.cpp:28-45 | the comparison is reflexive and symmetric |
| LLVMPassSignature.SignatureOfInjective | src/LLVMPass/LLVMFunctionSignature.cpp:13-22 | two function types have equal signatures exactly when they are the same function type |
| LLVMPassSignature.FromType | src/LLVMPass/LLVMFunctionSignature.cpp:13-22 | the signature has the type's return type and its parameter types, the same number and in the same order |
| LLVMPassSignature.FromFunction | src/LLVMPass/LLVMFunctionSignature.cpp:24-26 | a function's signature is that of its function type |
| LLVMPassSignature.Equal | src/LLVMPass/LLVMFunctionSignature.cpp:28-45 | `operator==` is true exactly when the return types agree and the parameter lists agree element by element, that is, when the signatures are equal |
| LLVMPassSignature.NotEqual | src/LLVMPass/LLVMFunctionSignature.cpp:47-49 | `operator!=` is true exactly when the signatures differ |
| ExtractorSignature.FromTypeInjective | src/Extractor/LLVMFunctionSignature.cpp:13-17 | two function types give equal signatures exactly when they are the same function type |
| ExtractorSignature.DifferentCountsDiffer | src/Extractor/LLVMFunctionSignature.cpp:27-29 | signatures with different parameter counts never compare equal |
| ExtractorSignature.Equal | src/Extractor/LLVMFunctionSignature.cpp:23-40 | `operator==` is true exactly when the return types agree and the parameter lists agree element by element, that is, when the signatures are equal |
| ExtractorSignature.NotEqual | src/Extractor/LLVMFunctionSignature.cpp:42-44 | `operator!=` is true exactly when the signatures differ |
| SignatureGrouping.FunctionSignatureGrouper.constructor | src/LLVMPass/FunctionSignatureGrouper.h:26 | a new grouper has no group |
| SignatureGrouping.FunctionSignatureGrouper.Clear | src/LLVMPass/FunctionSignatureGrouper.cpp:7-9 | `clear` removes every group |
| SignatureGrouping.FunctionSignatureGrouper.GetFunctions | src/LLVMPass/FunctionSignatureGrouper.cpp:16-24 | the result is null exactly when no function was registered under the signature, and the group otherwise |
| SignatureGrouping.FunctionSignatureGrouper.GetOrAddSignature | src/LLVMPass/FunctionSignatureGrouper.cpp:26-34 | an absent signature gets an empty group, a present one keeps its group, and nothing else changes |
| SignatureGrouping.FunctionSignatureGrouper.Register | src/LLVMPass/FunctionSignatureGrouper.cpp:11-14 | the function is appended to the group of its own signature, which is created if new; every function stays grouped under its signature |
| SymbolTables.TypeName | src/LLVMPass/SymbolTable.cpp:25-51 | an integer type is named `i` and its decimal bit width, a struct type by its own name, an unknown kind by the empty string |
| SymbolTables.TypeSize | src/LLVMPass/SymbolTable.cpp:59-78 | an integer type's size is its bit width rounded down to whole bytes; a kind that is neither integer nor floating point has size 0 |
| SymbolTables.FloatNameIsWidth | src/LLVMPass/SymbolTable.cpp:25-78 | every floating-point kind except the PowerPC one is named `f` and eight times its byte size |
| SymbolTables.IntegerNameRoundTrip | src/LLVMPass/SymbolTable.cpp:41-45 | the bit width of an integer type can be read back from the digits of its name |
| SymbolTables.IntegerNamesDistinct | src/LLVMPass/SymbolTable.cpp:41-45 | integer types of different widths get different names |
| SymbolTables.SymbolTable.constructor | src/LLVMPass/SymbolTable.h:95-101 | a new table has no API, no constructor and no callback candidate, and its name set agrees with its API list |
| SymbolTables.SymbolTable.Clear | src/LLVMPass/SymbolTable.cpp:82-86 | `clear` drops the APIs, their names and the constructors, and keeps the callback candidates |
| SymbolTables.SymbolTable.AddApi | src/LLVMPass/SymbolTable.cpp:88-96 | a function whose name is already present is ignored; otherwise it is appended and its name recorded; the API list never holds two functions of the same name |
| SymbolTables.SymbolTable.AddConstructor | src/LLVMPass/SymbolTable.cpp:98-100 | the function is appended to the type's constructor list, created if absent, without a duplicate check; nothing else changes |
| SymbolTables.SymbolTable.AddCallbackFunction | src/LLVMPass/SymbolTable.cpp:102-104 | the candidate is appended to the callback list; nothing else changes |
| SymbolTables.SymbolTable.GetConstructors | src/LLVMPass/SymbolTable.cpp:106-114 | the result is null exactly when the type name was never registered, and its constructor list otherwise |
| CafMeta.TypeKindName | caf/CAFMeta.hpp:354-367 | a value gets the name "Unknown" exactly when it is none of the four type kinds |
| CafMeta.TypeKindNameRoundTrip | caf/CAFMeta.hpp:354-367 | reading a kind's name back gives the kind, and "Unknown" reads back as no kind |
| CafMeta.TypeKindNamesDistinct | caf/CAFMeta.hpp:354-367 | the four type kinds have four different names |
| CafMeta.ActivatorKindName | caf/CAFMeta.hpp:693-702 | a value gets "Unknown" exactly when it is neither the constructor nor the factory kind, and an activator kind's name is never a type kind's name |
| CafMeta.EmptyRef | caf/CAFMeta.hpp:165-168 | the default reference is empty and has slot 0 |
| CafMeta.Kind | caf/CAFMeta.hpp:380-382 | every type reports one of the four kinds, which has a proper name |
| CafMeta.IdKey | caf/CAFMeta.hpp:1051-1053 | an id below 2^31 is stored under itself as a 32-bit key |
| CafMeta.IdKeyInjectiveBelow | caf/CAFMeta.hpp:1051-1053 | ids below 2^31 are stored under different keys |
| CafMeta.IdKeysCollide | caf/CAFMeta.hpp:1051-1053 | two ids 2^32 apart land on the same 32-bit key |
| CafMeta.CAFStore.constructor | caf/CAFMeta.hpp:1049-1055 | a new store holds no types and no APIs, and its indexes agree with its lists |
| CafMeta.CAFStore.TypesUnique | caf/CAFMeta.hpp:1064-1106 | in a consistent store no two types share an id key, and no two named types share a name |
| CafMeta.CAFStore.ApisUnique | caf/CAFMeta.hpp:1118-1136 | in a consistent store no two APIs share an id key or a name |
| CafMeta.CAFStore.AddType | caf/CAFMeta.hpp:1064-1106 | a type whose id key, or whose name for a named type, is taken gives the empty reference and changes nothing; any other type goes in the next slot, is indexed under its key and name, and its reference is returned; the APIs are untouched |
| CafMeta.CAFStore.CreateBitsType | caf/CAFMeta.hpp:966-971 | the reference is empty exactly when the name or the id key is taken; otherwise it points at the new bits type in the next slot |
| CafMeta.CAFStore.CreatePointerType | caf/CAFMeta.hpp:981-984 | the reference is empty exactly when the id key is taken; otherwise it points at the new pointer type in the next slot |
| CafMeta.CAFStore.CreateArrayType | caf/CAFMeta.hpp:994-998 | the reference is empty exactly when the id key is taken; otherwise it points at the new array type in the next slot |
| CafMeta.CAFStore.CreateStructType | caf/CAFMeta.hpp:1007-1012 | the reference is empty exactly when the name or the id key is taken; otherwise it points at the new struct type in the next slot |
| CafMeta.CAFStore.AddApi | caf/CAFMeta.hpp:1118-1136 | an API whose id key or name is taken gives the empty reference and changes nothing; any other API goes in the next slot and is indexed under its key and name; the types are untouched |
| CafMeta.CAFStore.CreateApi | caf/CAFMeta.hpp:1022-1028 | the reference is empty exactly when the name or the id key is taken; otherwise the new API is in the next slot |
| SymbolNames.InsertOrUpdate | src/LLVMPass/CAFDriver.cpp:32-42 | an absent key is added with the factory's value, a present key gets its value updated, the key set grows by the key only and every other entry stays |
| SymbolNames.LastBalanced | src/LLVMPass/CAFDriver.cpp:67-77 | the result is the last suffix start below the bound whose brackets balance, and no later start balances; none when no start balances |
| SymbolNames.RemoveArgsStripsGroup | src/LLVMPass/CAFDriver.cpp:52-82 | when `removeArgs` strips something it strips exactly the argument list the final closing bracket closes: it starts at the matching opening bracket, inside which the depth stays positive |
| SymbolNames.RemoveArgsKeepsPlainName | src/LLVMPass/CAFDriver.cpp:58-65 | a name that is empty or does not end in `)` or `>` is returned unchanged |
| SymbolNames.RemoveArgs | src/LLVMPass/CAFDriver.cpp:58-82 | the reverse scan with a bracket counter cuts the name before the shortest balanced suffix, and returns the name unchanged when there is none or it does not end in a closing bracket |
| SymbolNames.ComponentEnd | src/LLVMPass/CAFDriver.cpp:150-163 | the component scan stops at a `::` or at the end of the name, never before where it starts |
| SymbolNames.BraceNeverCloses | src/LLVMPass/CAFDriver.cpp:162 | as written, `}` never closes a bracket, so `{a}::b` is not split |
| SymbolNames.BraceCloses | src/LLVMPass/CAFDriver.cpp:160-163 | with `}` closing a bracket, `{a}::b` splits into `{a}` and `b` |
| SymbolNames.SplitUnfold | src/LLVMPass/CAFDriver.cpp:147-170 | each component is followed by the components of the name after its separator |
| SymbolNames.SplitJoin | src/LLVMPass/CAFDriver.cpp:147-170 | joining the components with `::` gives the name back, except for a dropped final `::` |
| SymbolNames.QualifiedName.constructor | src/LLVMPass/CAFDriver.cpp:98-101 | a new qualified name holds the components `load` produces as written, where `}` does not close a bracket |
| SymbolNames.QualifiedName.Load | src/LLVMPass/CAFDriver.cpp:147-170 | `load` appends the components of the name, each cut at a `::` at bracket depth zero, with the depth test as written (`)`, `>` and `]` close, `}` does not) |
| SymbolNames.QualifiedName.Size | src/LLVMPass/CAFDriver.cpp:118-120 | `size` is the number of components |
| SymbolNames.QualifiedName.At | src/LLVMPass/CAFDriver.cpp:130-136 | a non-negative index counts from the front and a negative one from the back |
| SymbolNames.IsConstructor | src/LLVMPass/CAFDriver.cpp:182-196 | a function is a constructor exactly when its name has at least two components, as `load` splits them as written, and the last two agree once their arguments are removed |
| CafLib.Stdin.GetChar | src/Instrumentor/InstrumentorLib/caflib.h:13 | `getchar` gives the next input byte and moves past it, or -1 at the end without moving |
| CafLib.Stdin.ScanChar | src/Instrumentor/InstrumentorLib/caflib.h:25 | `scanf("%c")` stores a byte exactly when one is left, the next one, and moves past it |
| CafLib.NextFour | src/Instrumentor/InstrumentorLib/caflib.h:11-16 | the four bytes `inputIntTo` reads: the next input bytes, with 255 for each read past the end (`EOF` kept in an `unsigned char`) |
| CafLib.InputIntTo | src/Instrumentor/InstrumentorLib/caflib.h:8-18 | the integer is the little-endian value of the next four bytes (255 past the end), taken to 32 bits by the two's-complement wrap the model assumes for the undefined overflow, and the input moves by four bytes or to its end |
| CafLib.InputBytesTo | src/Instrumentor/InstrumentorLib/caflib.h:20-28 | the buffer's first bytes receive the next input bytes, as many as `size` and the input allow, the rest of the buffer is untouched, and the input moves by that many |
| CafLib.ObjectList.constructor | src/Instrumentor/InstrumentorLib/caflib.h:30 | the object list starts empty |
| CafLib.ObjectList.SaveToObjectList | src/Instrumentor/InstrumentorLib/caflib.h:31-35 | the object is appended and nothing else changes |
| CafLib.ObjectList.GetFromObjectList | src/Instrumentor/InstrumentorLib/caflib.h:37-41 | an index inside the list gives that object; any other index, negative ones included since the comparison is unsigned, gives 0 |
| FunctionDatabase.FindDot | include/Targets/Common/FunctionDatabase.h:137-140 | the search gives a position at or after the start, holding a dot unless it is the end of the name |
| FunctionDatabase.FindDotFirst | include/Targets/Common/FunctionDatabase.h:137-140 | the position found is the first dot at or after the start, or the end when there is none |
| FunctionDatabase.ComponentsNoDot | include/Targets/Common/FunctionDatabase.h:136-142 | no component of a name holds a dot |
| FunctionDatabase.ComponentsJoin | include/Targets/Common/FunctionDatabase.h:136-142 | joining the components with dots gives the name back, up to a final dot that starts no component |
| FunctionDatabase.ComponentsOfJoin | include/Targets/Common/FunctionDatabase.h:136-142 | names without dots, none empty, joined with dots split back into the same names |
| FunctionDatabase.Resolve | include/Targets/Common/FunctionDatabase.h:146-150 | a property lookup succeeds exactly when the target has the property, and gives its value |
| FunctionDatabase.CachedWalkGrows | include/Targets/Common/FunctionDatabase.h:144-155 | a cache that only gains edges still reaches every node it reached, at the same node |
| FunctionDatabase.AddChildValid | include/Targets/Common/FunctionDatabase.h:116-121 | caching a resolved property as a new child node keeps every cached edge a true property of its parent |
| FunctionDatabase.FunctionDatabase.constructor | include/Targets/Common/FunctionDatabase.h:33-38 | a new database has only the root node, holding the global object, and no registered function |
| FunctionDatabase.FunctionDatabase.AddChild | include/Targets/Common/FunctionDatabase.h:116-121 | the child is a new node at the end, holding the property value, reached from its parent by the component; nothing else changes |
| FunctionDatabase.FunctionDatabase.Child | include/Targets/Common/FunctionDatabase.h:144-155 | a cached child is followed without a lookup; otherwise the property is resolved and cached; the step succeeds exactly when the property exists, and the cache only grows |
| FunctionDatabase.FunctionDatabase.NextComponent | include/Targets/Common/FunctionDatabase.h:137-142 | each round of the scan reads the next dot-separated component of the name and moves past its dot |
| FunctionDatabase.FunctionDatabase.GetNode | include/Targets/Common/FunctionDatabase.h:133-158 | the walk finds a node exactly when every component resolves in turn from the global object, the node holds what the path resolves to, and a path already cached is walked without a lookup |
| FunctionDatabase.FunctionDatabase.AddFunction | include/Targets/Common/FunctionDatabase.h:52-59 | the program exits exactly when the name does not resolve; otherwise the id is mapped to the resolved object and every other id keeps its object |
| FunctionDatabase.FunctionDatabase.Populate | include/Targets/Common/FunctionDatabase.h:67-71 | the program exits exactly when some function's name does not resolve; otherwise every function id of the store is registered, the last function with an id winning |
| FunctionDatabase.FunctionDatabase.GetFunction | include/Targets/Common/FunctionDatabase.h:79-87 | the object registered under the id, and none exactly when the id was never registered |
| SerializationContexts.AddValueIdempotent | src/Fuzzer/TestCaseSerializer.cpp:17-22 | adding a value twice is adding it once |
| SerializationContexts.AddValueNumbers | src/Fuzzer/TestCaseSerializer.cpp:17-22 | a new value gets the next value number, different from every earlier one, and the counter moves by one exactly when the value is new; numbers given before stay |
| SerializationContexts.SkipNeverNumbers | src/Fuzzer/TestCaseSerializer.cpp:24-26 | a skipped number is never given to a value added afterwards |
| SerializationContexts.AdjustmentIsNextNumber | src/Fuzzer/TestCaseSerializer.cpp:28-32 | the placeholder index registered for adjustment maps to the number the next new value gets |
| SerializationContexts.TestCaseSerializationContext.GetValueIndex | src/Fuzzer/TestCaseSerializer.cpp:13-15 | the number of a value that has one is below the counter |
| SerializationContexts.TestCaseSerializationContext.AddValue | src/Fuzzer/TestCaseSerializer.cpp:17-22 | the context's state becomes that of adding the value |
| SerializationContexts.TestCaseSerializationContext.SkipCurrentIndex | src/Fuzzer/TestCaseSerializer.cpp:24-26 | the context's state becomes that of using up one value number |
| SerializationContexts.TestCaseSerializationContext.SetPlaceholderIndexAdjustment | src/Fuzzer/TestCaseSerializer.cpp:28-32 | the next placeholder index is used up and mapped to the next value number, which is only peeked at |
| SerializationContexts.TestCaseSerializationContext.GetPlaceholderIndexAdjustment | src/Fuzzer/TestCaseSerializer.cpp:34-39 | a registered placeholder index maps to a value number not past the counter, and it was handed out already |
| SerializationContexts.AddSlotF | src/Fuzzer/TestCaseDeserializer.cpp:9-13 | one more slot, empty, at the end |
| SerializationContexts.SetValueF | src/Fuzzer/TestCaseDeserializer.cpp:15-17 | the slot count stays and every slot but the one set is unchanged |
| SerializationContexts.GetValueF | src/Fuzzer/TestCaseDeserializer.cpp:19-21 | reading succeeds exactly when the index is inside the slots, and throws out of range otherwise |
| SerializationContexts.SetThenGet | src/Fuzzer/TestCaseDeserializer.cpp:15-21 | a slot just set reads back as the value set, and every other slot reads as before |
| SerializationContexts.NewSlotIsEmpty | src/Fuzzer/TestCaseDeserializer.cpp:9-13 | a new slot is at the old slot count and reads as empty; the others read as before |
| SerializationContexts.ReserveMarksSlot | src/Fuzzer/TestCaseDeserializer.cpp:31-35 | reserving ties the next slot to the next placeholder index and leaves every other reservation as it was |
| SerializationContexts.TestCaseDeserializationContext.AllocValueIndex | src/Fuzzer/TestCaseDeserializer.cpp:9-13 | the index returned is the old slot count, and one empty slot is added |
| SerializationContexts.TestCaseDeserializationContext.SetValue | src/Fuzzer/TestCaseDeserializer.cpp:15-17 | the slot at the index, which must exist, holds the value |
| SerializationContexts.TestCaseDeserializationContext.GetValue | src/Fuzzer/TestCaseDeserializer.cpp:19-21 | the slot's value when the index is inside the slots, an out-of-range error otherwise |
| SerializationContexts.TestCaseDeserializationContext.SkipNextValueIndex | src/Fuzzer/TestCaseDeserializer.cpp:23-25 | one empty slot is added |
| SerializationContexts.TestCaseDeserializationContext.SkipNextPlaceholderIndex | src/Fuzzer/TestCaseDeserializer.cpp:27-29 | one placeholder index is used up without a slot |
| SerializationContexts.TestCaseDeserializationContext.ReservePlaceholderIndex | src/Fuzzer/TestCaseDeserializer.cpp:31-35 | the next placeholder index is used up and tied to the next slot |
| SerializationContexts.TestCaseDeserializationContext.GetPlaceholderIndex | src/Fuzzer/TestCaseDeserializer.cpp:41-46 | the placeholder index of a reserved slot was handed out already |
| TestCaseWriting.Trivial | include/Fuzzer/TestCaseSerializer.h:49-54 | a trivially copied field is exactly its `sizeof` in bytes |
| TestCaseWriting.EncodeValue | include/Fuzzer/TestCaseSerializer.h:63-103 | a writable value is never written as nothing: at least its kind byte |
| TestCaseWriting.EncodeValuesAppend | include/Fuzzer/TestCaseSerializer.h:85-88 | writing two lists of values one after the other writes their concatenation |
| TestCaseWriting.EncodeCallsAppend | include/Fuzzer/TestCaseSerializer.h:35-37 | writing two lists of calls one after the other writes their concatenation |
| TestCaseWriting.ReadField | include/Fuzzer/TestCaseSerializer.h:49-54 | reading a field succeeds exactly when enough bytes are left, consumes exactly its width and gives a value below 256 to the width |
| TestCaseWriting.DecodeValue | include/Fuzzer/TestCaseSerializer.h:63-103 | a successful read of a value always consumes something |
| TestCaseWriting.DecodeValues | include/Fuzzer/TestCaseSerializer.h:85-98 | reading a count of values gives exactly that many values |
| TestCaseWriting.ReadTrivial | include/Fuzzer/TestCaseSerializer.h:49-54 | a field written with `WriteTrivial` reads back as the same number, leaving what follows |
| TestCaseWriting.DecodeAfterTag | include/Fuzzer/TestCaseSerializer.h:66-101 | after a kind byte the reader reads what that kind carries |
| TestCaseWriting.BitsRoundTrip | include/Fuzzer/TestCaseSerializer.h:68-75 | a bits value written and read back is the same value, the rest of the input untouched |
| TestCaseWriting.PointerRoundTrip | include/Fuzzer/TestCaseSerializer.h:76-81 | a pointer value round-trips when its pointee does |
| TestCaseWriting.ArrayRoundTrip | include/Fuzzer/TestCaseSerializer.h:82-90 | an array value round-trips when its elements do |
| TestCaseWriting.StructRoundTrip | include/Fuzzer/TestCaseSerializer.h:91-100 | a struct value round-trips when its arguments do |
| TestCaseWriting.ValueRoundTrip | include/Fuzzer/TestCaseSerializer.h:63-103 | every writable value whose arrays hold as many elements as their size says reads back as itself, with what follows untouched |
| TestCaseWriting.ValuesRoundTrip | include/Fuzzer/TestCaseSerializer.h:63-103 | values written one after the other read back as the same list |
| TestCaseWriting.DecodeCall | include/Fuzzer/TestCaseSerializer.h:112-124 | a successful read of a call always consumes something |
| TestCaseWriting.DecodeCalls | include/Fuzzer/TestCaseSerializer.h:35-37 | reading a count of calls gives exactly that many calls |
| TestCaseWriting.CallRoundTrip | include/Fuzzer/TestCaseSerializer.h:112-124 | a call written and read back is the same call |
| TestCaseWriting.CallsRoundTrip | include/Fuzzer/TestCaseSerializer.h:35-37 | calls written one after the other read back as the same list |
| TestCaseWriting.TestCaseRoundTrip | include/Fuzzer/TestCaseSerializer.h:29-38 | a written test case reads back as itself, with nothing left over |
| TestCaseWriting.Output.Write | include/Fuzzer/TestCaseSerializer.h:53 | `write` appends the bytes |
| TestCaseWriting.WriteTrivial | include/Fuzzer/TestCaseSerializer.h:49-54 | exactly the field's bytes are appended, `sizeof` of them |
| TestCaseWriting.WriteValue | include/Fuzzer/TestCaseSerializer.h:63-103 | what is appended is the encoding of the value: its kind, then its payload with the elements and arguments in order |
| TestCaseWriting.WriteValues | include/Fuzzer/TestCaseSerializer.h:85-98 | the element or argument loop appends the encodings of the values in order |
| TestCaseWriting.WriteCall | include/Fuzzer/TestCaseSerializer.h:112-124 | what is appended is the function id, the argument count, then the arguments |
| TestCaseWriting.WriteTestCase | include/Fuzzer/TestCaseSerializer.h:29-38 | what is appended is the call count, then each call in order, and that reads back as the test case |
| LegacyWriting.EncodeValue | caf/CAFMutator.hpp:774-813 | a value is written as at least its four-byte kind field |
| LegacyWriting.EncodeValuesAppend | caf/CAFMutator.hpp:796-799 | writing two lists of values one after the other writes their concatenation |
| LegacyWriting.EncodeCallsAppend | caf/CAFMutator.hpp:744-747 | writing two lists of calls one after the other writes their concatenation |
| LegacyWriting.StructArgumentsAmbiguous | caf/CAFMutator.hpp:802-809 | a struct's argument count is not written, so two different values can be written as the same bytes |
| LegacyWriting.DecodeValue | caf/CAFMutator.hpp:774-813 | a successful read of a value always consumes something |
| LegacyWriting.DecodeValues | caf/CAFMutator.hpp:796-809 | reading a count of values gives exactly that many values |
| LegacyWriting.DecodeAfterKind | caf/CAFMutator.hpp:776-812 | after the kind field the reader reads what that kind carries |
| LegacyWriting.BitsRoundTrip | caf/CAFMutator.hpp:779-786 | a bits value written and read back is the same value, the rest of the input untouched |
| LegacyWriting.PointerRoundTrip | caf/CAFMutator.hpp:787-792 | a pointer value round-trips when its pointee does |
| LegacyWriting.ArrayRoundTrip | caf/CAFMutator.hpp:793-801 | an array value round-trips when its elements do |
| LegacyWriting.StructRoundTrip | caf/CAFMutator.hpp:802-809 | a struct value round-trips when its arguments do and their number is what its activator takes |
| LegacyWriting.ValueRoundTrip | caf/CAFMutator.hpp:774-813 | a reader that knows every activator's arity reads back every written value whose structs and arrays hold as many values as their activator or length says |
| LegacyWriting.ValuesRoundTrip | caf/CAFMutator.hpp:774-813 | values written one after the other read back as the same list under the same condition |
| LegacyWriting.DecodeCalls | caf/CAFMutator.hpp:744-747 | reading a count of calls gives exactly that many calls |
| LegacyWriting.CallRoundTrip | caf/CAFMutator.hpp:822-834 | a call written and read back is the same call |
| LegacyWriting.CallsRoundTrip | caf/CAFMutator.hpp:744-747 | calls written one after the other read back as the same list |
| LegacyWriting.TestCaseRoundTrip | caf/CAFMutator.hpp:739-748 | a written test case reads back as itself for a reader that knows the arities |
| LegacyWriting.WriteValue | caf/CAFMutator.hpp:774-813 | what is appended is the encoding of the value: its kind, then its payload with the elements and arguments in order |
| LegacyWriting.WriteValues | caf/CAFMutator.hpp:796-809 | the element or argument loop appends the encodings of the values in order |
| LegacyWriting.WriteCall | caf/CAFMutator.hpp:822-834 | what is appended is the function id, the argument count, then the arguments |
| LegacyWriting.WriteTestCase | caf/CAFMutator.hpp:739-748 | what is appended is the call count, then each call in order |
| TestCaseParsing.ReadUnsigned | include/Targets/Common/TestCaseParser.h:63-74 | reading an `n`-byte integer consumes exactly `n` bytes and gives a value below 256 to the `n`; it fails with the model's `Truncated` error exactly when fewer bytes are left |
| TestCaseParsing.ParseValueF | include/Targets/Common/TestCaseParser.h:111-147 | a successfully parsed value always consumes input and never loses an array handle |
| TestCaseParsing.ParseArrayF | include/Targets/Common/TestCaseParser.h:178-187 | a successfully parsed array always consumes input and never loses an array handle |
| TestCaseParsing.ParseElementsF | include/Targets/Common/TestCaseParser.h:181-185 | the element loop never moves backwards and never loses an array handle |
| TestCaseParsing.ParseArgsF | include/Targets/Common/TestCaseParser.h:97-100 | the argument loop never moves backwards |
| TestCaseParsing.ParseCallF | include/Targets/Common/TestCaseParser.h:90-104 | a successfully parsed call always consumes input |
| TestCaseParsing.ParseCallsF | include/Targets/Common/TestCaseParser.h:50-53 | the call loop never moves backwards |
| TestCaseParsing.ParseCallsStep | include/Targets/Common/TestCaseParser.h:51-53 | a failing call stops the loop with its error; a successful one leaves one call fewer to parse |
| TestCaseParsing.EncodeValue | include/Targets/Common/TestCaseParser.h:111-147 | every value is encoded as at least its kind byte |
| TestCaseParsing.ReadFieldAt | include/Targets/Common/TestCaseParser.h:63-74 | an `n`-byte field that holds a number written least significant byte first reads back as that number |
| TestCaseParsing.I32RoundTrip | include/Targets/Common/TestCaseParser.h:168-171 | an `int32_t` written as its two's-complement bits reads back as itself |
| TestCaseParsing.DenoteValueConsumes | include/Targets/Common/TestCaseParser.h:111-147 | building a described value consumes exactly its encoding |
| TestCaseParsing.DenoteCallConsumes | include/Targets/Common/TestCaseParser.h:90-104 | running a described call consumes exactly its encoding |
| TestCaseParsing.ParseValueRoundTrip | include/Targets/Common/TestCaseParser.h:111-147 | parsing the encoding of a value does what the value describes, the errors included |
| TestCaseParsing.ParseBooleanRoundTrip | include/Targets/Common/TestCaseParser.h:149-153 | a boolean is one byte, 0 or 1 |
| TestCaseParsing.ParseStringRoundTrip | include/Targets/Common/TestCaseParser.h:155-161 | a string is its 4-byte length and its bytes |
| TestCaseParsing.ParseFunctionRoundTrip | include/Targets/Common/TestCaseParser.h:163-166 | a function is its 4-byte id |
| TestCaseParsing.ParseIntegerRoundTrip | include/Targets/Common/TestCaseParser.h:168-171 | an integer is its 4 two's-complement bytes |
| TestCaseParsing.ParseFloatRoundTrip | include/Targets/Common/TestCaseParser.h:173-176 | a float is the 8 bytes of its bits |
| TestCaseParsing.ParsePlaceholderRoundTrip | include/Targets/Common/TestCaseParser.h:189-192 | a placeholder is its 4-byte pool index, and an index past the pool is an error |
| TestCaseParsing.ParseArrayRoundTrip | include/Targets/Common/TestCaseParser.h:178-187 | an array's handle enters the pool, then its elements are parsed and pushed in order |
| TestCaseParsing.ParseElementsRoundTrip | include/Targets/Common/TestCaseParser.h:181-185 | parsing the encodings of array elements does what the elements describe |
| TestCaseParsing.ParseArgsRoundTrip | include/Targets/Common/TestCaseParser.h:97-100 | parsing the encodings of arguments does what the arguments describe |
| TestCaseParsing.ParseCallRoundTrip | include/Targets/Common/TestCaseParser.h:90-104 | parsing the encoding of a call does what the call describes |
| TestCaseParsing.ParseCallsRoundTrip | include/Targets/Common/TestCaseParser.h:50-53 | parsing the encodings of calls does what the calls describe |
| TestCaseParsing.ParseAndRunRoundTrip | include/Targets/Common/TestCaseParser.h:48-54 | parsing a whole encoded test case clears the pool and runs the calls it describes |
| TestCaseParsing.ParseEncodedTestCase | include/Targets/Common/TestCaseParser.h:48-54 | a fresh parser over an encoded test case does what the test case describes |
| TestCaseParsing.DenoteCallsRecords | include/Targets/Common/TestCaseParser.h:90-104 | a successful run records one invocation per call, in order, with the call's function id |
| TestCaseParsing.DenoteCallRecords | include/Targets/Common/TestCaseParser.h:101-103 | a successful call is recorded once after the earlier ones, and its result enters the pool |
| TestCaseParsing.DenoteValueGrows | include/Targets/Common/TestCaseParser.h:111-147 | building a value keeps the recorded calls and never shrinks the pool |
| TestCaseParsing.TestCaseParser.constructor | include/Targets/Common/TestCaseParser.h:36-39 | a new parser reads from the start of the stream with an empty pool |
| TestCaseParsing.TestCaseParser.ReadInt | include/Targets/Common/TestCaseParser.h:63-74 | `ReadInt` consumes exactly `n` bytes and gives their little-endian value; a short stream is the model's `Truncated` error (see Left out) |
| TestCaseParsing.TestCaseParser.ParseBooleanValue | include/Targets/Common/TestCaseParser.h:149-153 | the method does what `ParseBooleanF` says: one byte, 0 or 1 |
| TestCaseParsing.TestCaseParser.ParseStringValue | include/Targets/Common/TestCaseParser.h:155-161 | the method does what `ParseStringF` says |
| TestCaseParsing.TestCaseParser.ParseFunctionValue | include/Targets/Common/TestCaseParser.h:163-166 | the method does what `ParseFunctionF` says |
| TestCaseParsing.TestCaseParser.ParseIntegerValue | include/Targets/Common/TestCaseParser.h:168-171 | the method does what `ParseIntegerF` says |
| TestCaseParsing.TestCaseParser.ParseFloatValue | include/Targets/Common/TestCaseParser.h:173-176 | the method does what `ParseFloatF` says |
| TestCaseParsing.TestCaseParser.ParsePlaceholderValue | include/Targets/Common/TestCaseParser.h:189-192 | the method does what `ParsePlaceholderF` says, failing on an index past the pool as `at` throws |
| TestCaseParsing.TestCaseParser.ParseArrayValue | include/Targets/Common/TestCaseParser.h:178-187 | the method does what `ParseArrayF` says |
| TestCaseParsing.TestCaseParser.ParseValue | include/Targets/Common/TestCaseParser.h:111-147 | the method does what `ParseValueF` says, failing on a kind outside the nine |
| TestCaseParsing.TestCaseParser.ParseArgs | include/Targets/Common/TestCaseParser.h:97-100 | the argument loop does what `ParseArgsF` says |
| TestCaseParsing.TestCaseParser.ParseCall | include/Targets/Common/TestCaseParser.h:90-104 | the method does what `ParseCallF` says: the call is read, run and its result appended to the pool |
| TestCaseParsing.TestCaseParser.ParseNextCall | include/Targets/Common/TestCaseParser.h:51-53 | one pass of the call loop leaves the rest of the loop to do what remains |
| TestCaseParsing.TestCaseParser.ParseCalls | include/Targets/Common/TestCaseParser.h:50-53 | the call loop does what `ParseCallsF` says |
| TestCaseParsing.TestCaseParser.ParseAndRun | include/Targets/Common/TestCaseParser.h:48-54 | the method does what `ParseAndRunF` says: the pool is cleared, then the call count and that many calls are read |
| JavaScriptText.ToHexDigit | src/Fuzzer/JavaScriptSynthesisBuilder.cpp:13-20 | a value below 16 becomes a lower-case hexadecimal digit that reads back as the value |
| JavaScriptText.HexValue | src/Fuzzer/JavaScriptSynthesisBuilder.cpp:13-20 | a hexadecimal digit stands for a value below 16 |
| JavaScriptText.SignedChar | src/Fuzzer/JavaScriptSynthesisBuilder.cpp:118 | a byte held in a signed `char` keeps its value below 128 and is 256 less from 128 on |
| JavaScriptText.BackslashNotEscaped | src/Fuzzer/JavaScriptSynthesisBuilder.cpp:119-126 | as written, a backslash followed by `n` escapes to the same text as a newline |
| JavaScriptText.AsWrittenCons | src/Fuzzer/JavaScriptSynthesisBuilder.cpp:118-140 | as written, the escapes of the bytes come in the order of the bytes |
| JavaScriptText.PlainEscapesAsWritten | src/Fuzzer/JavaScriptSynthesisBuilder.cpp:119-126 | as written, a printable byte other than a quote is kept as it is |
| JavaScriptText.HighByteFailsAssertion | src/Fuzzer/JavaScriptSynthesisBuilder.cpp:135-137 | as written, a byte of 128 or more gives a negative digit and fails the assertion of `ToHexDigit` |
| JavaScriptText.EscapeByte | src/Fuzzer/JavaScriptSynthesisBuilder.cpp:118-140 | the intended escape of a byte is never empty |
| JavaScriptText.EscapeAppend | src/Fuzzer/JavaScriptSynthesisBuilder.cpp:118-140 | escaping a concatenation escapes each part in turn |
| JavaScriptText.EscapeLength | src/Fuzzer/JavaScriptSynthesisBuilder.cpp:116 | the escaped text is never shorter than the bytes |
| JavaScriptText.UnescapeByte | src/Fuzzer/JavaScriptSynthesisBuilder.cpp:118-140 | reading back the escape of a byte followed by more text gives the byte, then what that text gives |
| JavaScriptText.UnescapeEscape | src/Fuzzer/JavaScriptSynthesisBuilder.cpp:114-143 | escaping loses nothing: the escaped text reads back as the bytes |
| JavaScriptText.EscapeInjective | src/Fuzzer/JavaScriptSynthesisBuilder.cpp:114-143 | different byte strings escape to different texts |
| JavaScriptText.EscapeString | src/Fuzzer/JavaScriptSynthesisBuilder.cpp:114-143 | as written: the loop appends the as-written escapes byte by byte and fails at the first byte whose hex digit fails the assertion |
| JavaScriptText.EscapeStringIntended | src/Fuzzer/JavaScriptSynthesisBuilder.cpp:114-143 | the same loop on the corrected byte escape computes `Escape` of the bytes |
| JavaScriptText.AsWrittenAgreesOnPlainBytes | src/Fuzzer/JavaScriptSynthesisBuilder.cpp:114-143 | on bytes below 128 other than the backslash the as-written escape succeeds and equals the corrected one |
| JavaScriptText.IntegerText | src/Fuzzer/JavaScriptSynthesisBuilder.cpp:44-46 | an integer is written as at least one character |
| JavaScriptText.UnquotedStringIsNull | src/Fuzzer/JavaScriptSynthesisBuilder.cpp:50-52 | as written, the string `null` is written as the `null` literal, since strings are not quoted |
| JavaScriptText.LiteralText | src/Fuzzer/JavaScriptSynthesisBuilder.cpp:24-59 | as intended, a string is written between double quotes around its escapes |
| JavaScriptText.StringLiteralRoundTrip | src/Fuzzer/JavaScriptSynthesisBuilder.cpp:50-52 | as intended, the inside of a string literal reads back as the string's bytes |
| JavaScriptText.CallTextWithReceiver | src/Fuzzer/JavaScriptSynthesisBuilder.cpp:81-112 | with a receiver the function is called through `.apply`, the receiver before the arguments and `, ` between them |
| JavaScriptText.FirstDot | src/Fuzzer/NodejsSynthesisBuilder.cpp:28 | the position found holds the first dot of the name |
| JavaScriptText.ModuleNameSplits | src/Fuzzer/NodejsSynthesisBuilder.cpp:11-29 | the module of a name in a module is a non-empty part before its first dot, holding no dot |
| SynthesisBuilding.VarName | src/Fuzzer/SynthesisBuilder.cpp:60-64 | a variable is named `_` followed by the decimal counter |
| SynthesisBuilding.VarNamesDistinct | src/Fuzzer/SynthesisBuilder.cpp:60-64 | different counter values give different variable names |
| SynthesisBuilding.SynthesisBuilder.constructor | include/Fuzzer/SynthesisBuilder.h:128-134 | a new builder has no variable, no output, nothing synthesised and the counter at 0 |
| SynthesisBuilding.SynthesisBuilder.ModuleOf | src/Fuzzer/NodejsSynthesisBuilder.cpp:11-29 | a Node.js builder requires the module before its first dot of a name that starts with a lower-case letter and holds a dot; the plain JavaScript builder requires nothing |
| SynthesisBuilding.SynthesisBuilder.GetNextVariableName | src/Fuzzer/SynthesisBuilder.cpp:60-64 | the name is `_` and the counter, which moves on by one; nothing else changes |
| SynthesisBuilding.SynthesisBuilder.CreateVariable | include/Fuzzer/SynthesisBuilder.h:142-145 | the variable is appended and returned; nothing else changes |
| SynthesisBuilding.SynthesisBuilder.GetSynthesisedVariable | include/Fuzzer/SynthesisBuilder.h:185-188 | the variable of a value synthesised before is the one named after its index |
| SynthesisBuilding.SynthesisBuilder.SetLastSynthesisedValue | include/Fuzzer/SynthesisBuilder.h:205-208 | the value is mapped to the last variable created; nothing else changes |
| SynthesisBuilding.SynthesisBuilder.WriteRequireStatement | src/Fuzzer/NodejsSynthesisBuilder.cpp:33-43 | `let m = require('m');` is written only for a module not yet imported, which is then imported; no module is ever required twice |
| SynthesisBuilding.SynthesisBuilder.RequireModuleOf | src/Fuzzer/NodejsSynthesisBuilder.cpp:47-52 | the require a name needs is written once, before the statement that uses it |
| SynthesisBuilding.SynthesisBuilder.WriteVariableDef | src/Fuzzer/JavaScriptSynthesisBuilder.cpp:61-67 | `let <name> = <literal>`, preceded on Node.js by the require of a function value's module |
| SynthesisBuilding.SynthesisBuilder.WriteEmptyArrayVariableDef | src/Fuzzer/JavaScriptSynthesisBuilder.cpp:69-72 | `let <name> = [];` is appended; nothing else changes |
| SynthesisBuilding.SynthesisBuilder.WriteArrayPushStatement | src/Fuzzer/JavaScriptSynthesisBuilder.cpp:74-79 | `<name>.push(<element>);` is appended; nothing else changes |
| SynthesisBuilding.SynthesisBuilder.WriteFunctionCallStatement | src/Fuzzer/JavaScriptSynthesisBuilder.cpp:81-112 | the call statement is appended, preceded on Node.js by the require of the function's module |
| SynthesisBuilding.SynthesisBuilder.SynthesisFunctionCall | src/Fuzzer/SynthesisBuilder.cpp:35-54 | the call's result gets the next variable, a name not used before, and the call statement is written with the receiver and argument names |
| SynthesisBuilding.SynthesisBuilder.NextNameFresh | src/Fuzzer/SynthesisBuilder.cpp:60-64 | the next variable name is none of the names given so far |
| SynthesisBuilding.SynthesisBuilder.SynthesisConstant | src/Fuzzer/SynthesisBuilder.cpp:9-33 | a value synthesised before gives back its variable and writes nothing; any other gets a fresh variable, defined as a literal or as an empty array followed by one push per element; earlier variables stay |
| SynthesisBuilding.SynthesisBuilder.SynthesisNew | src/Fuzzer/SynthesisBuilder.cpp:17-30 | a value not synthesised before gets a fresh variable and its definition, the elements of an array first synthesised in order and pushed |
| SynthesisBuilding.SynthesisBuilder.NewVariableFor | src/Fuzzer/SynthesisBuilder.cpp:17-19 | the value gets the next variable name, a fresh one, created and remembered for it |
| SynthesisBuilding.SynthesisBuilder.SynthesisElements | src/Fuzzer/SynthesisBuilder.cpp:24-27 | the element loop writes, for each element in order, its synthesis and a push of its variable onto the array |
| SynthesisBuilding.SynthesisBuilder.SynthesisElement | src/Fuzzer/SynthesisBuilder.cpp:25-26 | one element is synthesised and its variable pushed onto the array |
| TestCaseSynthesis.ResolvesLater | src/Fuzzer/TestCaseSynthesiser.cpp:36-42 | what a value resolves to does not change while later calls add return variables and memo entries |
| TestCaseSynthesis.ResolvesAllLater | src/Fuzzer/TestCaseSynthesiser.cpp:21-23 | the same for the argument list of a call |
| TestCaseSynthesis.TranscriptSnoc | src/Fuzzer/TestCaseSynthesiser.cpp:12-27 | the program text of one more call goes at the end of the text so far |
| TestCaseSynthesis.TestCaseSynthesiser.constructor | include/Fuzzer/TestCaseSynthesiser.h:25-26 | a synthesiser over the given builder and function names, with no return variable yet |
| TestCaseSynthesis.TestCaseSynthesiser.ResolvedNameNonEmpty | src/Fuzzer/TestCaseSynthesiser.cpp:13-16 | a resolved receiver name is never the empty variable, so a call with a receiver is always written with it |
| TestCaseSynthesis.TestCaseSynthesiser.SynthesisValue | src/Fuzzer/TestCaseSynthesiser.cpp:36-42 | a placeholder succeeds exactly when it names an earlier call, writes nothing and resolves to that call's return variable; any other value is synthesised as a constant; earlier memo entries and variables stay |
| TestCaseSynthesis.TestCaseSynthesiser.SynthesisArgs | src/Fuzzer/TestCaseSynthesiser.cpp:18-23 | the arguments succeed exactly when each fits, and then resolve in order to the names returned |
| TestCaseSynthesis.TestCaseSynthesiser.SynthesisReceiver | src/Fuzzer/TestCaseSynthesiser.cpp:13-16 | no receiver gives the empty name; a receiver succeeds exactly when it fits and then resolves to the name returned |
| TestCaseSynthesis.TestCaseSynthesiser.SynthesisCall | src/Fuzzer/TestCaseSynthesiser.cpp:13-26 | a call succeeds exactly when its receiver and arguments fit; then a fresh return variable is made and the output grows by the receiver's and arguments' definitions, the require needed and the call statement |
| TestCaseSynthesis.TestCaseSynthesiser.Synthesis | src/Fuzzer/TestCaseSynthesiser.cpp:8-30 | the test case succeeds exactly when every placeholder names an earlier call; then one return variable per call is appended, each new and distinct, and the output grows by one described record per call, in order |
| TestCaseSynthesis.TestCaseSynthesiser.SynthesisStep | src/Fuzzer/TestCaseSynthesiser.cpp:12-27 | one turn of the call loop keeps the loop's progress invariant and appends the call's return variable |
| TestCaseSynthesis.TestCaseSynthesiser.ProgressStep | src/Fuzzer/TestCaseSynthesiser.cpp:12-27 | a call that fits and is described extends the progress invariant by one call |
| TestCaseSynthesis.TestCaseSynthesiser.ProgressFresh | src/Fuzzer/TestCaseSynthesiser.cpp:26 | the return variables appended by the loop are new and pairwise distinct |
| Printing.ForegroundCode | src/CLI/Printer.cpp:9-11 | a foreground code is 30-37 for the eight normal colours and 90-97 exactly for the bright ones |
| Printing.BackgroundCode | src/CLI/Printer.cpp:13-15 | a background code is 40-47 or 100-107 |
| Printing.BackgroundNeverForeground | src/CLI/Printer.cpp:13-15 | no background code equals any foreground code |
| Printing.ForegroundCodeInjective | src/CLI/Printer.h:9-26 | different colours have different codes |
| Printing.ColorCodeRoundTrip | src/CLI/Printer.cpp:22-25 | a colour escape is `ESC [`, decimal digits and `m`, and the digits read back as the code |
| Printing.ClearColorText | src/CLI/Printer.cpp:17-20 | the reset escape is `ESC [ m` |
| Printing.SpacesBlank | src/CLI/Printer.h:181-184 | the indentation is exactly n blanks |
| Printing.EmitIndents | src/CLI/Printer.h:178-188 | at the start of a line the text is preceded by exactly the indentation in blanks; elsewhere it is written unchanged |
| Printing.EmitConcat | src/CLI/Printer.h:220-225 | printing values one after the other writes what printing their concatenation writes: only the first is indented |
| Printing.ColorOffStillEscapes | src/CLI/Printer.h:236-240 | as written, with colouring off the coloured print still emits an escape, so the output differs from the plain text |
| Printing.ColorText | src/CLI/Printer.h:236-240 | as intended, colouring off writes the plain text and colouring on wraps it in the colour code and the reset |
| Printing.Printer.constructor | src/CLI/Printer.h:94-98 | a new printer writes nothing yet, colours on, indentation width 2, level 0, at the start of a line |
| Printing.Printer.Indent | src/CLI/Printer.h:181 | the indentation is zero when either the width or the level is zero, not negative for a width of zero or more, and negative for a negative width at a positive level |
| Printing.Printer.SetColorOn | src/CLI/Printer.h:105 | only the colour switch changes |
| Printing.Printer.SetIndentWidth | src/CLI/Printer.h:112 | any width, negative ones included, is stored; only the width changes |
| Printing.Printer.PushIndent | src/CLI/Printer.cpp:31-34 | one level deeper, so a new line is indented by one more width; nothing else changes |
| Printing.Printer.PopIndent | src/CLI/Printer.cpp:64-67 | one level back, never below zero; nothing else changes |
| Printing.Printer.SetForegroundColor | src/CLI/Printer.cpp:36-41 | the colour's foreground escape is written only when colouring is on |
| Printing.Printer.SetBackgroundColor | src/CLI/Printer.cpp:43-48 | the colour's background escape is written only when colouring is on |
| Printing.Printer.SetColor | src/CLI/Printer.cpp:50-56 | the foreground then the background escape, only when colouring is on |
| Printing.Printer.ClearColor | src/CLI/Printer.cpp:69-71 | the reset escape is written, whether or not colouring is on |
| Printing.Printer.ResetColor | src/CLI/Printer.h:65 | the colour guard's release as intended: the reset is written only when colouring is on |
| Printing.Printer.Print | src/CLI/Printer.h:178-188 | the text is written after the indentation when a line starts, and the line is no longer at its start; a line may start only with an indentation of zero or more |
| Printing.Printer.PrintValues | src/CLI/Printer.h:220-225 | the values are written in order, only the first indented |
| Printing.Printer.PrintLine | src/CLI/Printer.cpp:58-62 | a newline is written, indented only when the line is empty, and a new line starts |
| Printing.Printer.PrintLineValues | src/CLI/Printer.h:204-209 | the values then a newline, and a new line starts |
| Printing.Printer.PrintWithColorAsWritten | src/CLI/Printer.h:236-240 | as written: the values between the colour escape (when on) and a reset that is always written |
| Printing.Printer.PrintWithColor | src/CLI/Printer.h:236-240 | as intended: the values wrapped in the colour escapes when colouring is on, plain otherwise |
| Printing.Printer.PrintLineWithColor | src/CLI/Printer.h:252-256 | as written: the values between the colour escape (when on) and the reset that is always written, then a newline |
| Printing.Printer.PrintLineWithColorIntended | src/CLI/Printer.h:252-256 | on the intended `PrintWithColor`: the coloured values (plain when colouring is off), then a newline outside the colour |
| ExtractApi.Lookup | src/Scripts/ExtractAPI.js:65 | the property found has the name asked for, and none is found only when no property has it |
| ExtractApi.LookupOwnName | src/Scripts/ExtractAPI.js:54-65 | with distinct own names, reading a property by its own name finds that property |
| ExtractApi.ResolveChild | src/Scripts/ExtractAPI.js:63-84 | following one more property extends the resolved path by that name, and its text by a dot (when the parent is not the root) and the name |
| ExtractApi.ResolveInHeap | src/Scripts/ExtractAPI.js:63-84 | every value a walk path reaches is in the heap |
| ExtractApi.ClosedSetHoldsReachable | src/Scripts/ExtractAPI.js:74-85 | a set of values closed under the followed properties holds every value a walk path reaches |
| ExtractApi.JoinPathIsDotJoin | src/Scripts/ExtractAPI.js:78-82 | the path text is the property names joined with `.`, and non-empty for a non-empty path |
| ExtractApi.QueueValuesAppend | src/Scripts/ExtractAPI.js:84-85 | enqueueing adds exactly the new value to the waiting ones |
| ExtractApi.Canonicalize | src/Scripts/ExtractAPI.js:23-28 | the canonical form keeps exactly the id and the name |
| ExtractApi.OutputNames | src/Scripts/ExtractAPI.js:152 | the dumped database lists, in order, the name of each recorded callable |
| ExtractApi.OutputNameOfId | src/Scripts/ExtractAPI.js:42-52 | the i-th dumped name is the name of the callable with id i |
| ExtractApi.Dequeue | src/Scripts/ExtractAPI.js:44 | taking the head of the queue moves a visited, not yet processed value to the processed ones |
| ExtractApi.Enqueue | src/Scripts/ExtractAPI.js:84-85 | enqueueing a new value under a walk path keeps the queue consistent, the value now visited |
| ExtractApi.ExpandProperties | src/Scripts/ExtractAPI.js:54-86 | every own property not skipped, not throwing, not nullish and not seen before is enqueued under its child path; afterwards every processed value's children are visited |
| ExtractApi.Progress | src/Scripts/ExtractAPI.js:43 | processing one more value leaves fewer to process, so the walk ends |
| ExtractApi.RecordCallable | src/Scripts/ExtractAPI.js:49-52 | a dequeued callable is recorded under the next id and its path |
| ExtractApi.RecordOther | src/Scripts/ExtractAPI.js:45-47 | a dequeued value that is not a callable records nothing |
| ExtractApi.VisitNext | src/Scripts/ExtractAPI.js:43-87 | one pass dequeues a value not processed before, records it when callable under the next id, and enqueues its children, keeping the queue and record invariants, and the breadth-first order: waiting paths sorted by length within one name of the last dequeued path, recorded paths sorted and no longer than it |
| ExtractApi.DequeueOrder | src/Scripts/ExtractAPI.js:44 | dequeueing the shortest waiting path makes its length the level, and the remaining queue stays within one name of it, in order |
| ExtractApi.EnqueueOrder | src/Scripts/ExtractAPI.js:84-85 | a child path, one name longer than the level, keeps the queue sorted by length |
| ExtractApi.RecordOrder | src/Scripts/ExtractAPI.js:49-52 | recording a path of the level's length keeps the recorded paths sorted |
| ExtractApi.WalkStart | src/Scripts/ExtractAPI.js:32-42 | the walk starts with the global object waiting under the empty path and nothing recorded |
| ExtractApi.WalkRecordsReachable | src/Scripts/ExtractAPI.js:43-89 | once the processed values are closed under children, every callable reachable avoiding the skipped names has been recorded |
| ExtractApi.FindFunctions | src/Scripts/ExtractAPI.js:31-90 | ids are 0..N-1 in order; each entry is a distinct callable reached by a path that avoids `caller`, `callee`, `arguments`, `caf` and `CAFFuzzer`, named by that path; the paths come in order of length, as a breadth-first walk finds them; and every callable reachable that way is listed |
| ExtractorContexts.FunctionTypeRefs | src/Extractor/ExtractorContext.cpp:532-536 | the types a function type reaches are its return type followed by its parameter types |
| ExtractorContexts.GetTypeSizeAsWritten | src/Extractor/ExtractorContext.cpp:59-81 | as written, an integer's size is its width divided by 8 rounded down, a float's its width in bytes |
| ExtractorContexts.BoolGetsNoBytes | src/Extractor/ExtractorContext.cpp:64 | as written, `i1` gets size 0, too small to hold its one bit |
| ExtractorContexts.GetTypeSize | src/Extractor/ExtractorContext.cpp:59-81 | as intended, an integer gets the fewest whole bytes holding its width; a float gets 2, 4, 8, 10, 16 or 16 bytes |
| ExtractorContexts.SizesAgreeOnWholeBytes | src/Extractor/ExtractorContext.cpp:63-64 | the two sizes agree on every type whose width is a whole number of bytes |
| ExtractorContexts.GetTypeName | src/Extractor/ExtractorContext.cpp:83-109 | integers are named `i` and more, floats `f` and more, a struct by its name, every other type the empty name |
| ExtractorContexts.IntegerNameGivesWidth | src/Extractor/ExtractorContext.cpp:84-85 | an integer type's name is `i` followed by its width in decimal, which reads back as the width |
| ExtractorContexts.BitsTypeNamesInjective | src/Extractor/ExtractorContext.cpp:83-103 | two bits types with the same name are the same type, so they also have the same size |
| ExtractorContexts.EmptyRegistry | src/Extractor/ExtractorContext.cpp:458-472 | a new registry holds no key |
| ExtractorContexts.Register | src/Extractor/ExtractorContext.cpp:127-136 | a key already there leaves the registry unchanged; a new key gets the next id, the number of keys so far, and goes last; the registry stays consistent |
| ExtractorContexts.RegisterIdempotent | src/Extractor/ExtractorContext.cpp:127-130 | adding the same key twice is adding it once |
| ExtractorContexts.Find | src/Extractor/ExtractorContext.cpp:201-211 | an id is found exactly for a listed key, and it is that key's position in the list |
| ExtractorContexts.FindById | src/Extractor/ExtractorContext.cpp:222-236 | a key is found exactly for an id below the count, and its own id is that id |
| ExtractorContexts.FindInverse | src/Extractor/ExtractorContext.cpp:201-236 | looking up by key and by id are inverse to each other |
| ExtractorContexts.KeysDistinct | src/Extractor/ExtractorContext.cpp:462-472 | no key is listed twice |
| ExtractorContexts.RegistryFits | src/Extractor/ExtractorContext.cpp:458-472 | a registry holds no more keys than the set they are drawn from |
| ExtractorContexts.DedupMembers | src/Extractor/ExtractorContext.cpp:127-136 | removing repeats keeps exactly the same elements |
| ExtractorContexts.RegisterDedup | src/Extractor/ExtractorContext.cpp:127-136 | adding keys one by one lists each once, in the order of its first occurrence |
| ExtractorContexts.ListKeys | src/Extractor/ExtractorContext.cpp:213-220 | the copied list is the keys in the order they were added, the i-th with id i |
| ExtractorContexts.MatchingMembers | src/Extractor/ExtractorContext.cpp:248-251 | the values listed for a key are exactly those paired with it |
| ExtractorContexts.EqualRange | src/Extractor/ExtractorContext.cpp:248-251 | the loop over `equal_range` yields the values paired with the key, in multimap order |
| ExtractorContexts.HasKeyMatching | src/Extractor/ExtractorContext.cpp:244 | a key is present in the multimap exactly when it has at least one value |
| ExtractorContexts.Accepted | src/Extractor/ExtractorContext.cpp:175-186 | every candidate kept is a function whose signature is a callback signature |
| ExtractorContexts.AcceptedMembers | src/Extractor/ExtractorContext.cpp:175-186 | a function is kept exactly when it is a candidate and its signature is a callback signature |
| ExtractorContexts.CandidatesRecorded | src/Extractor/ExtractorContext.cpp:188-198 | a callback signature without an id after the candidates is one that no candidate has |
| ExtractorContexts.FrozenContext.constructor | src/Extractor/ExtractorContext.cpp:115 | a new frozen context: every registry, map and list empty |
| ExtractorContexts.FrozenContext.AddApiFunction | src/Extractor/ExtractorContext.cpp:127-136 | the function is registered: kept if known, given the next id otherwise |
| ExtractorContexts.FrozenContext.AddConstructor | src/Extractor/ExtractorContext.cpp:142-153 | the constructor is registered; only a new one is also paired with its type both ways |
| ExtractorContexts.FrozenContext.AddType | src/Extractor/ExtractorContext.cpp:159-173 | the type is registered; a new function type also adds its signature to the callback signatures |
| ExtractorContexts.FrozenContext.AddCallbackFunctionCandidate | src/Extractor/ExtractorContext.cpp:175-186 | accepted exactly when its signature is a callback signature; then it is appended and indexed under the signature, else nothing changes |
| ExtractorContexts.FrozenContext.AddCallbackFunctionCandidates | src/Extractor/ExtractorContext.cpp:522-524 | the loop appends exactly the accepted candidates, in order |
| ExtractorContexts.FrozenContext.CollectCallbackFunctions | src/Extractor/ExtractorContext.cpp:522-526 | after the candidates and the fill-in every callback signature has an id; the list is the accepted candidates followed by distinct synthesised signatures that no candidate has |
| ExtractorContexts.FrozenContext.AddSynthesised | src/Extractor/ExtractorContext.cpp:194-197 | a synthesised entry for the signature is appended and indexed under it |
| ExtractorContexts.FrozenContext.PopulateLackingCallbackFunction | src/Extractor/ExtractorContext.cpp:188-199 | the earlier entries stay; afterwards every callback signature has an id; the new entries are distinct synthesised signatures that had none |
| ExtractorContexts.FrozenContext.GetApiFunctions | src/Extractor/ExtractorContext.cpp:213-220 | the functions in the order they got their ids |
| ExtractorContexts.FrozenContext.GetConstructors | src/Extractor/ExtractorContext.cpp:265-272 | the constructors in the order they got their ids |
| ExtractorContexts.FrozenContext.GetConstructingType | src/Extractor/ExtractorContext.cpp:256-263 | a type is found exactly for a registered constructor, and the constructor is paired with it |
| ExtractorContexts.FrozenContext.GetConstructorsOfType | src/Extractor/ExtractorContext.cpp:242-254 | the constructors paired with the type, each registered and constructing that type |
| ExtractorContexts.FrozenContext.GetCallbackFunctions | src/Extractor/ExtractorContext.cpp:283-290 | the ids indexed under the signature, each of an entry with that signature |
| ExtractorContexts.ExtractorContext.constructor | src/Extractor/ExtractorContext.cpp:484 | a new context: nothing found, not frozen |
| ExtractorContexts.ExtractorContext.AddApiFunction | src/Extractor/ExtractorContext.cpp:499-502 | before freezing only, the function is appended |
| ExtractorContexts.ExtractorContext.AddConstructor | src/Extractor/ExtractorContext.cpp:504-507 | before freezing only, the type and constructor pair is added |
| ExtractorContexts.ExtractorContext.AddCallbackFunctionCandidate | src/Extractor/ExtractorContext.cpp:509-512 | before freezing only, the candidate is appended |
| ExtractorContexts.ExtractorContext.FreezeType | src/Extractor/ExtractorContext.cpp:539-584 | on success the type has an id and everything it reaches is frozen or pending; an abort happens only when the module has a type the extractor does not accept; ids only grow |
| ExtractorContexts.ExtractorContext.FreezeChildren | src/Extractor/ExtractorContext.cpp:550-583 | on success the pointee, element, fields or constructors, or return and parameter types of the type are frozen |
| ExtractorContexts.ExtractorContext.FreezeTypes | src/Extractor/ExtractorContext.cpp:568-570 | on success every type of the list is frozen |
| ExtractorContexts.ExtractorContext.FreezeNextType | src/Extractor/ExtractorContext.cpp:568-570 | one turn of the loop freezes one more type of the list |
| ExtractorContexts.ExtractorContext.FreezeConstructor | src/Extractor/ExtractorContext.cpp:586-594 | the constructor gets an id and, on success, its return and parameter types are frozen |
| ExtractorContexts.ExtractorContext.FreezeConstructors | src/Extractor/ExtractorContext.cpp:572-575 | on success every constructor of the type has an id and its types frozen |
| ExtractorContexts.ExtractorContext.FreezeNextConstructor | src/Extractor/ExtractorContext.cpp:573-575 | one turn of the loop freezes one more constructor |
| ExtractorContexts.ExtractorContext.FreezeApiFunction | src/Extractor/ExtractorContext.cpp:529-537 | the function is registered and, on success, its return and parameter types are frozen |
| ExtractorContexts.ExtractorContext.FreezeNextApiFunction | src/Extractor/ExtractorContext.cpp:518-520 | one turn of the loop registers and freezes one more API function |
| ExtractorContexts.ExtractorContext.FreezeApiFunctions | src/Extractor/ExtractorContext.cpp:518-520 | on success the APIs have ids in order of first occurrence and all their types are frozen |
| ExtractorContexts.ExtractorContext.Freeze | src/Extractor/ExtractorContext.cpp:514-527 | an abort happens only for an unsupported type; on success the frozen context is consistent and closed, the APIs have ids in order of first occurrence, every callback signature has an id, and the callback list is the accepted candidates followed by synthesised signatures no candidate has |

## Left out

Discovery walk (src/Scripts/ExtractAPI.js):
- The namespace merger at lines 92-147, which `require`s the module list, is not modelled. The model takes the global object graph as given.
- A JavaScript `Set` compares its values by SameValueZero. The model compares node ids, which is the same thing for objects. For primitives it means two equal strings or numbers met under different paths are one value, visited once; the heap must give equal primitives one id for the model to match.
- `Object.getOwnPropertyNames(obj)` (line 54) is outside the `try` at lines 64-68, so a proxy whose `ownKeys` trap throws aborts the whole walk. The model's heap always lists the names; it has no walk that aborts.
- A getter run by `obj[name]` (line 65) can change the object graph while the walk is under way. The model's heap is fixed for the whole walk, so it cannot show the effects of such a getter.
- Printing the result (line 152 calls `console.log`) is modelled as the list of names, not as JSON text.

Extractor (src/Extractor/ExtractorContext.cpp):
- `CreateCAFStore` and `CreateCAFStoreContext` (lines 296-456 and 596-599) are not modelled. They copy the frozen registries into the store and call into LLVM.
- The `Get*Count` accessors are the lengths of the registries. The `Get*Id` and `Get*ById` accessors are `Find` and `FindById`.
- Ids are unbounded integers, where the source uses `uint64_t`. No registry gets near 2^64 entries.
- The `unordered_multimap` of constructors is taken in insertion order. The source leaves that order unspecified.
- `abort` is modelled as an `ok` result of false. The `llvm::errs` dumps before it are left out.
- BFloat, vector and other LLVM types the extractor does not handle all count as unsupported.
- ExtractorContexts.FrozenContext.TypesValid: this invariant states only that every registered type is in the module. It does not state the converse.
- ExtractorContexts.ExtractorContext.Freeze: a second `Freeze` is excluded by its precondition. In the source, `EnsureNotFrozen` aborts on it.
- include/Extractor/ExtractorContext.h declares an older interface (`AddFunction`, `_funcs`). The model follows the .cpp file.

LLVM pass (src/LLVMPass):
- `GetCAFStore`, `AddLLVMTypeToStore`, `CreateConstructorFromLLVMFunction` and `AddLLVMApiFunctionToStore` (SymbolTable.cpp:116-228) are not modelled. They build store entries from LLVM objects.
- The symbol table header declares `_callbackFunctionGrouper`, but the .cpp file appends to `_callbacks`. The model follows the .cpp file, so `SymbolTables.SymbolTable.Clear` keeps the callbacks, as the source does.
- Demangling is a parameter. `getConstructedTypeName`, `getProducingTypeName` and `isTopLevelApi` are not modelled, because they depend on the demangler's output.
- SymbolNames.InsertOrUpdate: the source's updator changes the stored value in place. The model's updator returns the new value.

Metadata (caf/CAFMeta.hpp):
- Type ids come from a counter shared by all stores. The model takes the next id as a parameter.
- The `toJson` and `deref` templates are not modelled.
- The `Function` and `Activator` classes are not modelled.
- `addTypePolymorphic` is an unimplemented TODO in the source, so it has no model.

Instrumented library (src/Instrumentor/InstrumentorLib/caflib.h):
- `getRandomBits` (an mt19937 generator) is a parameter.
- CafLib.InputIntTo: for a fourth byte of 128 or more, `cur * (1 << 24)` (caflib.h:15) overflows `int`, which is undefined behaviour. The model takes the two's-complement wrap, a negative number.
- The `printf` output is left out.

JavaScript synthesis (src/Fuzzer):
- Float formatting and function names are parameters of the literal text, because they come from the C++ standard library and the store.
- The header declares `isCtorCall`, but the .cpp file never uses it. `_retValVars` is used but not declared in the header. The model follows the .cpp file.
- `EnterMainFunction` and `LeaveFunction` are not modelled. The Node.js builder declares `EnterMainFunction` but never defines it.
- `_funcRetVariables` and `GetRetValueVariable` are never filled by any code, so they are left out.
- `GetCode` is the builder's output field.
- SynthesisBuilding.SynthesisBuilder.WriteVariableDef: the literal written is the corrected `LiteralText`, a string between quotes with the corrected escape. As written, a string is unquoted and its escape can fail an assertion (`LiteralTextAsWritten`, `EscapeString`). The builder's text is not modelled as written.
- SynthesisBuilding.SynthesisBuilder.SynthesisConstant: what it writes for a scalar is `WriteVariableDef`'s corrected literal, as the line above says.
- SynthesisBuilding.SynthesisBuilder.SynthesisNew: the same corrected literal, through `FreshDefinition`. The test-case synthesiser built on these writes the corrected literal too.
- A receiver call is written `.apply(receiver, a, b)`, which passes the arguments one by one rather than as an array. The model writes the text as the source does and claims nothing about what it runs.

Fuzzer values and mutations (src/Fuzzer, include/Fuzzer):
- A `FunctionCall` whose `_this` was never set reads an uninitialised field in the source. The model always gives it a value.
- Randomness.Random.NextBuffer: the model draws the buffer one byte at a time. The source fills it from the generator in larger words.
- Randomness.Random.WithProbability: the source takes a floating-point probability. The model only states that either outcome can be drawn.
- TestCaseMutation.InsertCall: the call to insert is a parameter. The source calls `GenerateCall`, which can also add new values to the corpus's object pools; the model's `InsertCall` leaves the pools as they were.
- TestCaseMutation.InsertCall, TestCaseMutation.RemoveCall, TestCaseMutation.MutateArgumentAsWritten, TestCaseMutation.MutateArgument and TestCaseMutation.Mutate: on an empty test case `Index` draws from the wrapped range [0, 2^64 - 1] (Random.h:171-185). Where the source then reads past the end, the model reports `Undefined` and stops with the empty created test case in the corpus; what the out-of-bounds read does is not modelled.
- The test-case generator follows the `_corpus` member of the .cpp file.
- The start value of `IncrementIdAllocator` is a parameter, because the source leaves it uninitialised.
- ValueGenerator: "generable" and "seeded" are preconditions. Without them the source reaches undefined behaviour or `CAF_UNREACHABLE`.
- TestCaseMutation.MutateValue: the source does not check a callback id against the candidates, and neither does the model. Adding mutated values to the object pools is left out.
- Values are trees in the model. The source shares them through pointers, so aliasing between test cases is not modelled, and neither are the cyclic values the test-case generator can build on a type reached from its own parts.
- BitsMutation.MutateBitsValue: a zero-byte bits value (an `i1`, which the extractor sizes at 0 bytes) is still offered BitFlip1/2/4, ByteFlip1 and ByteArith. There `size * CHAR_BIT - width` and `size - width` (TestCaseMutator.cpp:108, 113, 130) wrap around in `size_t`, so every drawn offset writes outside the buffer, which is undefined behaviour. The model does not mutate: it returns the data as it was with `defined` false (`BitsMutation.DrawnFitsExactlyWhenNonEmpty`, `BitsMutation.EmptyValueOffersUnfittable`).
- TestCaseMutation.MutateValue: a mutation that ends at a zero-byte bits value is the undefined case above, and so is one that reaches an empty array, whose drawn element index (TestCaseMutator.cpp:247) is past the end. `MutateValueF` keeps such a value as it is and `OutcomeOf` is `Undefined`; what the out-of-bounds write or read does is not modelled.
- TestCaseMutation.MutateValue: an aggregate or a placeholder value reaches `default: CAF_UNREACHABLE` (TestCaseMutator.cpp:304), which prints a message and calls `abort()`. The model reports `Aborted` and keeps the value; `MutateArgumentAsWritten`, `MutateArgument` and `Mutate` pass the outcome on, and the corpus they leave behind is the model's, since the source's process has ended.
- TestCaseGeneration.TestCaseGenerator.GenerateNewStructType: a struct reached from its own constructor parameters (a copy constructor's `const S&`) is not a `Type` here, because types are trees. The source pools the half-built struct before generating the parameters (TestCaseGenerator.cpp:58-63), so a parameter can draw it and the value becomes cyclic, and the generation ends only with probability 1. `CyclicGeneration.PoolFirstFinishes` covers this order over a type graph, without the values.
- TestCaseGeneration.TestCaseGenerator.GenerateNewAggregateType: an aggregate with a field that reaches back to it (a list node) is not a `Type` here. The source fills the fields from pools that already hold the half-built aggregate (TestCaseGenerator.cpp:82-91); the cyclic values that come of it are not modelled, and the order is the one of `CyclicGeneration.PoolFirst`.
- TestCaseGeneration.TestCaseGenerator.GenerateNewPointerType: a pointer whose pointee reaches back to it is not a `Type` here. The source pools the pointer before generating the pointee (TestCaseGenerator.cpp:35-40), as `CyclicGeneration.PoolFirst` models; the cyclic values are not modelled.
- ValueGeneration.ValueGenerator.GenerateNewStructType: a struct reached from its own constructor parameters is not a `Type` here. The source generates the parameters before pooling the struct (ValueGenerator.cpp:46-61), so from pools without a value of the struct the recursion never ends (see Findings, `CyclicGeneration.ChildrenFirstNeverFinishes`).
- ValueGeneration.ValueGenerator.GenerateNewPointerType: a pointee that reaches back to the pointer type is not a `Type` here. The source generates the pointee before pooling the pointer (ValueGenerator.cpp:29-33), and from an empty pool `GenerateValue` (lines 96-98) goes straight to another new value, so the recursion never ends (`CyclicGeneration.ChildrenFirst`).
- BitsMutation.Arith: for width 4 the source adds two `int32_t` in `int` (TestCaseMutator.cpp:141), and a signed overflow is undefined behaviour; the model takes the wrap modulo 2^32. The stores through `int16_t*` and `int32_t*` follow the host's byte order; the model assumes a little-endian host.
- BitsMutation.FlipBytes: the inversions through `uint16_t*` and `uint32_t*` (TestCaseMutator.cpp:119-122) act on the host's bytes; the model assumes a little-endian host. Inverting every byte of the window gives the same bytes on either byte order.
- TestCaseWriting: the kind bytes (bits 0, pointer 1, array 2, struct 3, one byte each) are assumed. The enum of the native value kinds is not part of this model.
- TestCaseWriting: `WriteTrivial` copies an object's bytes, which is the little-endian order only on a little-endian host. The model assumes such a host.
- SerializationContexts: both contexts start their allocators at 0. The source leaves the counter uninitialised, and other start values are not modelled for the contexts.

Legacy code (caf/):
- LegacyMutation.InsertCall: the call to be inserted is a parameter, in place of `generateCall`.
- The StructValue encoding does not write the argument count. `LegacyWriting.StructArgumentsAmbiguous` exhibits two different values with the same bytes. The round trips (`LegacyWriting.StructRoundTrip`, `ValueRoundTrip`, `TestCaseRoundTrip`) hold only for a reader that is given each activator's arity, which the bytes alone do not determine.

Test-case parser (include/Targets/Common/TestCaseParser.h):
- `InputStream` is not part of this model. What `_in.Read` does at the end of the stream is the model's choice: a read with fewer bytes left than asked for fails with `Truncated` (`TestCaseParsing.ReadUnsigned`, `TestCaseParsing.TestCaseParser.ReadInt`).
- TestCaseParsing.TestCaseParser.ReadInt: the `reinterpret_cast` at line 70 reads the buffer in the host's byte order. The model assumes a little-endian host.

Printer (src/CLI):
- A new printer starts at indentation level 0 with `startOfLine` set. The source's constructor leaves `_indentLevel` and `_startOfLine` uninitialised (Printer.h:94-98).
- The output stream is a string.
- Printing.Printer.Print: a line may start only with an indentation of zero or more (`CanIndent`). With a negative width at a positive level, `while (indentWidth--)` at Printer.h:181-184 counts down past the least `int`, which is undefined behaviour. The model excludes that state rather than modelling it. The same precondition is on `PrintValues`, `PrintLine`, `PrintLineValues` and the coloured prints.
- The indentation `indentWidth * indentLevel` is an unbounded integer. The source's `int` product can overflow.

Optional (include/Infrastructure/Optional.h):
- The member-wise copy that runs for `Optional<T>` copies the `_value` bytes. For a `T` that is not trivially copyable, the two copies share state, both are destroyed, and the target's old object is never destroyed. The model copies the content as a value and does not show any of that.

## Findings

| source | as written | input that shows it | evidently intended | confidence | as-written member | corrected member |
|---|---|---|---|---|---|---|
| src/Fuzzer/TestCaseMutator.cpp:108-109 | the bit mask is truncated to one byte | two zero bytes, bit offset 7, width 2: bit 8 is not flipped | every bit of the window is flipped | not executed | BitsMutation.FlipBitsAcrossBytes | BitsMutation.FlipBitsFlips |
| src/Fuzzer/TestCaseMutator.cpp:308-331 | the mutated call is never appended to the result | a test case of one call with one bits argument gives an empty test case | the call with the mutated argument takes the old call's place | not executed | TestCaseMutation.MutateArgumentDropsCall | TestCaseMutation.MutateArgument |
| src/CLI/Printer.h:65, 236-240 | the colour guard writes the reset code even when colour is off | colour off, any text: the output ends in `ESC[m` | with colour off, only the text is written | not executed | Printing.ColorOffStillEscapes | Printing.ColorText |
| src/LLVMPass/CAFDriver.cpp:162 | `)` is tested twice and `}` never closes a brace | `{a}::b` stays one component | `{a}::b` splits into `{a}` and `b` | not executed | SymbolNames.BraceNeverCloses | SymbolNames.BraceCloses |
| src/Fuzzer/JavaScriptSynthesisBuilder.cpp:118-138 | a backslash is copied unescaped, and a signed `char` gives a negative hex digit | `\n` as two bytes escapes like a newline; byte 255 fails the digit assertion | every byte string escapes to a distinct, well-formed literal | not executed | JavaScriptText.BackslashNotEscaped, JavaScriptText.HighByteFailsAssertion | JavaScriptText.EscapeStringIntended, JavaScriptText.UnescapeEscape |
| src/Fuzzer/JavaScriptSynthesisBuilder.cpp:50-52 | a string literal is written without quotes | the string `null` is emitted as the `null` literal | the literal is quoted and reads back as the string | not executed | JavaScriptText.UnquotedStringIsNull | JavaScriptText.StringLiteralRoundTrip |
| caf/CAFMutator.hpp:60-63, 76-79 | `random_index` draws from [0, size] | a container of any size: drawing `size` makes `select` read one past the end | draws from [0, size-1] | not executed | LegacyCorpus.SelectReadsPastEnd | LegacyCorpus.Select |
| src/Fuzzer/ValueGenerator.cpp:29-33, 46-61, 96-98 | a compound value enters its pool only after its parts are generated, and an empty pool always leads to a new value | a struct `Node` whose only constructor takes a `Node*`, with no value of either type pooled: generating a `Node` never returns | the value enters its pool before its parts, as the test-case generator does, so a part can reuse it | not executed | CyclicGeneration.ChildrenFirstNeverFinishes | CyclicGeneration.PoolFirstFinishes |
| src/Extractor/ExtractorContext.cpp:63-64 | an integer type's size is its bit width divided by 8, rounded down | `i1` gets size 0 | every integer type gets at least one byte | not executed | ExtractorContexts.BoolGetsNoBytes | ExtractorContexts.GetTypeSize |
