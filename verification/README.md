# EmitMapper core in Dafny

EmitMapper copies .NET objects member by member. A mapping configuration
describes the copy as a list of mapping operations:

- simple copies, with a converter, a null substitutor and filters;
- complex copies, which run nested operations on a sub-object;
- destination writes through a getter;
- setters fed from a source member;
- value processors;
- blocks of further operations.

`MappingOperationsProcessor` turns these operations into the body of a
generated mapping method. Every operation and delegate that code needs is
registered in the `StoredObjects` list, and the generated code reads it back
by index.

This project models that processor and the collection mapper, the
type-keyed dictionary, the cache and the `AstNewObject` node. It proves
properties of each.

## Modules

- `values.dfy` (`Values`): the shared building blocks.
  - CLR types, run-time values, exceptions and `Result`.
  - Reading and writing member chains. Objects are trees keyed by member name.
- `type_dictionary.dfy` (`TypeDictionaries`): `TypeDictionary<T>`.
  - A class over a `seq` of entries, with the pure functions that specify its methods.
  - Entry equality is prefix-based and is modelled as written.
- `thread_save_cache.dfy` (`Caches`): `ThreadSaveCache<T>`, as a class over a `map`.
- `ast_new_object.dfy` (`NewObjects`): the instructions `AstNewObject.Compile` emits.
  - Modelled as an abstract stack-instruction list, with a stack-depth check.
- `mapper_for_collection.dfy` (`Collections`): `MapperForCollection`'s copy
  routines as methods over arrays and a list class, and the routing in `MapImpl`.
- `operations.dfy` (`Operations`): the mapping operations.
  - What processing registers in `StoredObjects` (`StoredBy`).
  - What user delegates do at run time (`Host`).
- `ast.dfy` (`Ast`): the generated code as a node tree, and its run-time meaning (`Exec`).
  - `Exec` resolves delegates through the stored objects, as the emitted code does.
- `processor.dfy` (`Processor`): the processor class.
  - `MappingOperationsProcessor` has a `StoredObjects` field that its methods append to.
  - Each method is proved equal to a pure lowering function (`LowerOps` and its helpers).
  - A nested processor for a block or a complex copy shares the parent's `StoredObjects`.
- `build.dfy` (`Building`): building a mapper, processing then emission.
  - Emission fails only where a missing destination would be created for a type that has no constructor for no parameters.
  - `BuildSucceeds`: a mapper is built exactly for well-formed operations whose created types can all be created.
    Well formed means no null getter, setter or value processor, and every nested mapper a simple copy needs can itself be built.
- `meaning.dfy` (`Meaning`): what each operation does at run time, stated
  directly on the operation (`Run`, `RunAll`).
  - The main theorem `GeneratedCodeMeaning`: the code of a mapper that is built does exactly that.
- `behaviour.dfy` (`MapperBehaviour`): the behaviour of the generated code, operation kind by operation kind.

User delegates, static converters, nested mappers, reflection and
constructors are parameters (`Host`, `Reflection`, `CollectionHost`): total
functions that return a value or throw.

## Model

| member | source | states |
|---|---|---|
| Values.ReadMember | EmitMapper/EmitBuilders/MappingOperationsProcessor.cs:630-634 | reading a member succeeds exactly on an object; on null it throws |
| Values.ReadAfterWrite | EmitMapper/EmitBuilders/MappingOperationsProcessor.cs:413-417 | after a successful WriteMembersChain the chain reads back the written value |
| Values.ReadOtherAfterWrite | EmitMapper/EmitBuilders/MappingOperationsProcessor.cs:413-417 | a write leaves every chain that branches off before its end unchanged |
| Values.WriteSucceeds | EmitMapper/EmitBuilders/MappingOperationsProcessor.cs:413-417 | a write succeeds iff the parent of the written member is an existing object |
| TypeDictionaries.GeneralTypeReflexive | src/EmitMapper/MappingConfiguration/TypeDictionary.cs:47-50 | every type is general for itself |
| TypeDictionaries.ElementEquals | src/EmitMapper/MappingConfiguration/TypeDictionary.cs:126-129 | entry equality holds iff the entry's types are a prefix of the other's; it throws iff the other is a strict prefix |
| TypeDictionaries.SameLengthEquality | src/EmitMapper/MappingConfiguration/TypeDictionary.cs:126-129 | for keys of equal length, equality is exact key equality and never throws |
| TypeDictionaries.IndexOfEqual | src/EmitMapper/MappingConfiguration/TypeDictionary.cs:17-18 | List.Contains/Remove search: the first equal entry, none, or the throw of a comparison |
| TypeDictionaries.FirstMatch | src/EmitMapper/MappingConfiguration/TypeDictionary.cs:65-89 | a found entry is one of the entries |
| TypeDictionaries.FirstMatchIsFirst | src/EmitMapper/MappingConfiguration/TypeDictionary.cs:65-89 | the result is the first matching entry with no earlier entry matching; None iff no entry matches; an exception is that of the first entry whose test does not answer false |
| TypeDictionaries.FirstMatchAt | src/EmitMapper/MappingConfiguration/TypeDictionary.cs:67-88 | the search from entry n tests entry n, then goes on after it only when that test answers false |
| TypeDictionaries.FirstMatchOne | src/EmitMapper/MappingConfiguration/TypeDictionary.cs:91-112 | a found entry is one of the entries |
| TypeDictionaries.FirstMatchOneIsFirst | src/EmitMapper/MappingConfiguration/TypeDictionary.cs:91-112 | the result is the first entry all of whose types are general for the query type, every earlier entry having one that is not; None iff no entry qualifies |
| TypeDictionaries.FirstMatchOneAt | src/EmitMapper/MappingConfiguration/TypeDictionary.cs:93-111 | the single-type search from entry n tests entry n, then goes on after it only when it does not qualify |
| TypeDictionaries.FirstMatchAppend | src/EmitMapper/MappingConfiguration/TypeDictionary.cs:67-88 | entries are searched in insertion order: the back is searched only when the front has no match |
| TypeDictionaries.SingleTypeQuery | src/EmitMapper/MappingConfiguration/TypeDictionary.cs:65-112 | a query with one type matches what the single-type FindTypes matches (the index clamp reuses the one type) |
| TypeDictionaries.NonEmptyQueryNeverThrows | src/EmitMapper/MappingConfiguration/TypeDictionary.cs:71-77 | the index clamp keeps a non-empty query in range |
| TypeDictionaries.ShorterKeyIsReplaced | src/EmitMapper/MappingConfiguration/TypeDictionary.cs:13-21 | adding [a, b] over an entry [a] replaces it, because equality is by prefix |
| TypeDictionaries.LongerKeyThrows | src/EmitMapper/MappingConfiguration/TypeDictionary.cs:13-21 | adding [a] over an entry [a, b] throws IndexOutOfRange |
| TypeDictionaries.CountAppend | src/EmitMapper/MappingConfiguration/TypeDictionary.cs:20 | entries with a key add up over concatenation |
| TypeDictionaries.CountRemoveFirst | src/EmitMapper/MappingConfiguration/TypeDictionary.cs:18 | List.Remove removes one entry with the key when there is one |
| TypeDictionaries.AddReplacesEntry | src/EmitMapper/MappingConfiguration/TypeDictionary.cs:17-18 | with keys of one length, the search finds exactly the first entry with the key |
| TypeDictionaries.RemoveFirstAt | src/EmitMapper/MappingConfiguration/TypeDictionary.cs:18 | Remove drops exactly the first entry with the key |
| TypeDictionaries.RemoveFirstAbsent | src/EmitMapper/MappingConfiguration/TypeDictionary.cs:18 | Remove of an absent key changes nothing |
| TypeDictionaries.AddKeepsOneEntry | src/EmitMapper/MappingConfiguration/TypeDictionary.cs:13-21 | with keys of one length, Add replaces the old entry by one new entry at the end, so each key is held once |
| TypeDictionaries.LookupAfterAdd | src/EmitMapper/MappingConfiguration/TypeDictionary.cs:13-35 | a lookup after Add sees the other entries first, then the new entry |
| TypeDictionaries.AddKeepsKeysUnique | src/EmitMapper/MappingConfiguration/TypeDictionary.cs:13-21 | for keys of one length, Add never throws and keeps every key held by at most one entry, so the invariant the lemmas about Add require holds for every dictionary built by Add from empty |
| TypeDictionaries.RemoveFirstOther | src/EmitMapper/MappingConfiguration/TypeDictionary.cs:18 | List.Remove of one key leaves the count of every other key unchanged |
| TypeDictionaries.RemoveFirstUniform | src/EmitMapper/MappingConfiguration/TypeDictionary.cs:18 | List.Remove keeps every key at the same length |
| TypeDictionaries.FoundAfterAdd | src/EmitMapper/MappingConfiguration/TypeDictionary.cs:13-40 | an added key is found again |
| TypeDictionaries.TypeDictionary.constructor | src/EmitMapper/MappingConfiguration/TypeDictionary.cs:11 | a new dictionary is empty |
| TypeDictionaries.TypeDictionary.IndexOf | src/EmitMapper/MappingConfiguration/TypeDictionary.cs:17-18 | the loop returns IndexOfEqual of the entries |
| TypeDictionaries.TypeDictionary.Add | src/EmitMapper/MappingConfiguration/TypeDictionary.cs:13-21 | the new entries are Added(old entries), or the comparison's exception with the entries unchanged |
| TypeDictionaries.TypeDictionary.FindTypes | src/EmitMapper/MappingConfiguration/TypeDictionary.cs:65-89 | the nested loops return FirstMatch, including the clamp and the out-of-range throw |
| TypeDictionaries.TypeDictionary.FindType | src/EmitMapper/MappingConfiguration/TypeDictionary.cs:91-112 | the loops return FirstMatchOne |
| TypeDictionaries.TypeDictionary.GetValue | src/EmitMapper/MappingConfiguration/TypeDictionary.cs:23-28 | the value of the first matching entry, null without a match, throwing when FindTypes throws |
| TypeDictionaries.TypeDictionary.GetValueOne | src/EmitMapper/MappingConfiguration/TypeDictionary.cs:30-35 | the value of the first entry matching the one type |
| TypeDictionaries.TypeDictionary.IsTypesInList | src/EmitMapper/MappingConfiguration/TypeDictionary.cs:37-40 | true iff some entry matches |
| Caches.GetOrAdd | EmitMapper/Utils/ThreadSaveCache.cs:10-19 | a cached key returns its value without calling the getter; otherwise the getter's value is returned and cached, and nothing is cached when it throws |
| Caches.TryAdd | EmitMapper/Utils/ThreadSaveCache.cs:15 | TryAdd keeps an existing value and leaves other keys alone |
| Caches.GetNeverOverwrites | EmitMapper/Utils/ThreadSaveCache.cs:10-19 | Get never changes a cached value |
| Caches.RepeatedGetIsStable | EmitMapper/Utils/ThreadSaveCache.cs:10-19 | a second Get of a key returns the first result without calling the getter |
| Caches.ThreadSaveCache.constructor | EmitMapper/Utils/ThreadSaveCache.cs:8 | a new cache is empty |
| Caches.ThreadSaveCache.TryGetValue | EmitMapper/Utils/ThreadSaveCache.cs:12 | found iff the key is cached, with its value |
| Caches.ThreadSaveCache.Get | EmitMapper/Utils/ThreadSaveCache.cs:10-19 | value, new cache and whether the getter ran are those of GetOrAdd |
| NewObjects.ItemType | src/EmitMapper/AST/Nodes/AstNewObject.cs:27 | a new-object node leaves a value of its object type |
| NewObjects.ParamTypes | src/EmitMapper/AST/Nodes/AstNewObject.cs:62 | the parameters' item types, one per parameter |
| NewObjects.SelectsConstructor | src/EmitMapper/AST/Nodes/AstNewObject.cs:58-83 | after the parameters, a found constructor is called; otherwise a value type leaves its default and a reference type fails with the constructor-not-found error |
| NewObjects.NoParamsUsesDefaultConstructor | src/EmitMapper/AST/Nodes/AstNewObject.cs:58-73 | no parameters: the parameterless constructor is called |
| NewObjects.NullableUsesFirstParam | src/EmitMapper/AST/Nodes/AstNewObject.cs:31-55 | a Nullable<T> is built from the first parameter alone |
| NewObjects.DepthOne | src/EmitMapper/AST/Nodes/AstNewObject.cs:29-85 | stack depth of one instruction |
| NewObjects.DepthAppend | src/EmitMapper/AST/Nodes/AstNewObject.cs:29-85 | stack depth composes over concatenated code |
| NewObjects.ValueTypeFallbackLeavesParameters | src/EmitMapper/AST/Nodes/AstNewObject.cs:64-79 | as written, a value type without a matching constructor leaves its parameters and its default on the stack: two values instead of one |
| NewObjects.FixedPushesOneValue | src/EmitMapper/AST/Nodes/AstNewObject.cs:29-85 | with the fallback corrected, every node's code pushes exactly one value |
| NewObjects.FixedPushesEach | src/EmitMapper/AST/Nodes/AstNewObject.cs:64-65 | corrected parameter code pushes one value per parameter |
| NewObjects.FixedAgreesOffFallback | src/EmitMapper/AST/Nodes/AstNewObject.cs:58-73 | the correction changes nothing when a constructor matches |
| NewObjects.AllAgree | src/EmitMapper/AST/Nodes/AstNewObject.cs:64-65 | parameters that compile alike give the same parameter code |
| Collections.MapEach | src/EmitMapper/Mappers/MapperForCollection.cs:180-181 | element i of the result is the element mapping of item i; the first failure stops the copy and is reported |
| Collections.Finish | src/EmitMapper/Mappers/MapperForCollection.cs:171-184 | a copy succeeds iff no element failed |
| Collections.MapEachStep | src/EmitMapper/Mappers/MapperForCollection.cs:180-181 | one more item extends a successful copy by its mapping |
| Collections.FailureIsFinal | src/EmitMapper/Mappers/MapperForCollection.cs:180-181 | nothing after a failing element is mapped |
| Collections.MapEachGrows | src/EmitMapper/Mappers/MapperForCollection.cs:319-332 | an element mapped without an exception is appended to what the loop has produced |
| Collections.ShallowCopiesAll | src/EmitMapper/Mappers/MapperForCollection.cs:264-275 | a shallow copy keeps every item |
| Collections.RuntimeTypeKeepsNulls | src/EmitMapper/Mappers/MapperForCollection.cs:284-293 | a null item stays null |
| Collections.ScalarIsOneElement | src/EmitMapper/Mappers/MapperForCollection.cs:191-196 | a scalar is mapped as a one-element collection |
| Collections.Elements | src/EmitMapper/Mappers/MapperForCollection.cs:319 | a non-enumerable source is one element |
| Collections.ExtractElementType | src/EmitMapper/Mappers/MapperForCollection.cs:203-215 | T for T[] and List<T>, object for ArrayList, none otherwise |
| Collections.GetSubMapperTypeFrom | src/EmitMapper/Mappers/MapperForCollection.cs:142-150 | the element type, or the type itself |
| Collections.GetSubMapperTypeTo | src/EmitMapper/Mappers/MapperForCollection.cs:152-155 | the element type or none |
| Collections.RouteOf | src/EmitMapper/Mappers/MapperForCollection.cs:112-139 | arrays, List<T>, ArrayList and IList are tried in that order |
| Collections.SupportedTypes | src/EmitMapper/Mappers/MapperForCollection.cs:162-169 | every routed type is supported; a supported type without a route is a generic IList<T> only |
| Collections.ElementTypeForBuiltCollections | src/EmitMapper/Mappers/MapperForCollection.cs:203-215 | the collections MapImpl builds are exactly those with an element type |
| Collections.ListObject.constructor | src/EmitMapper/Mappers/MapperForCollection.cs:317 | a new list is empty |
| Collections.ListObject.Add | src/EmitMapper/Mappers/MapperForCollection.cs:322-331 | Add appends |
| Collections.MapperForCollection.constructor | src/EmitMapper/Mappers/MapperForCollection.cs:47-81 | the mapper keeps its target type, shallow flag and root operation |
| Collections.MapperForCollection.CopyToList | src/EmitMapper/Mappers/MapperForCollection.cs:171-184 | the list holds the sub-mapper's mapping of each item, in order |
| Collections.MapperForCollection.CopyToListScalar | src/EmitMapper/Mappers/MapperForCollection.cs:191-196 | a one-element list of the mapped scalar |
| Collections.MapperForCollection.CopyScalarToArray | src/EmitMapper/Mappers/MapperForCollection.cs:231-237 | a one-element array of the mapped scalar |
| Collections.MapperForCollection.CopyToArray | src/EmitMapper/Mappers/MapperForCollection.cs:239-260 | a collection is mapped element by element into the array; any other enumerable is copied unmapped |
| Collections.MapperForCollection.CopyToArrayList | src/EmitMapper/Mappers/MapperForCollection.cs:262-296 | shallow: the items; deep: each non-null item mapped by its run-time type |
| Collections.MapperForCollection.ShallowArrayList | src/EmitMapper/Mappers/MapperForCollection.cs:264-274 | a shallow ArrayList holds exactly the items, whether copied whole from a collection or added one by one |
| Collections.MapperForCollection.CopyToArrayListScalar | src/EmitMapper/Mappers/MapperForCollection.cs:298-313 | shallow: [from]; deep: a null scalar throws, otherwise it is mapped by its run-time type |
| Collections.MapperForCollection.CopyToIList | src/EmitMapper/Mappers/MapperForCollection.cs:315-335 | the given list, or a new one, gets the items appended after its old contents, mapped unless shallow or null |
| Collections.MapperForCollection.AddAll | src/EmitMapper/Mappers/MapperForCollection.cs:319-332 | the list gains the mapped items after its old contents, up to the first element that throws, and reports that exception |
| Collections.MapperForCollection.MapImpl | src/EmitMapper/Mappers/MapperForCollection.cs:107-140 | an exception from the target constructor is the result; otherwise the constructed list fills a null destination and the result is that of the route for the target type, or null |
| Collections.MapperForCollection.CopyTo | src/EmitMapper/Mappers/MapperForCollection.cs:112-139 | arrays, List<T>, ArrayList and IList each get their copy routine's result; any other type yields null |
| Collections.MapperForCollection.Map | src/EmitMapper/Mappers/MapperForCollection.cs:95-98 | Map ignores the given destination: it is MapImpl with a null destination, including the constructor's exception |
| Operations.StoredDelegates | EmitMapper/EmitBuilders/MappingOperationsProcessor.cs:463-485 | an optional delegate stores at most one object |
| Operations.StoredBy | EmitMapper/EmitBuilders/MappingOperationsProcessor.cs:84-117 | processing an operation stores the operation itself first |
| Operations.NullableValue | EmitMapper/EmitBuilders/MappingOperationsProcessor.cs:332-341 | Nullable<T>.Value succeeds iff there is a value |
| Operations.CompilesNoParams | src/EmitMapper/AST/Nodes/AstNewObject.cs:29-83 | `new AstNewObject(t, null)` compiles iff t is a Nullable<T>, has a constructor for no parameters or is a value type; otherwise it fails naming t |
| Operations.NewDestinationFails | src/EmitMapper/AST/Nodes/AstNewObject.cs:58-83 | a reference type without a parameterless constructor cannot be compiled as a new object |
| Operations.CreateEach | src/EmitMapper/AST/Nodes/AstNewObject.cs:58-83 | compiling creations in turn succeeds iff every type can be created; otherwise the error names the first type that cannot, all earlier ones can |
| Operations.CreateEachAppend | src/EmitMapper/AST/Nodes/AstNewObject.cs:58-83 | creations compile in sequence: the second list is compiled only when the first succeeds |
| Operations.BuildableOne | EmitMapper/EmitBuilders/MappingOperationsProcessor.cs:309-327 | a single operation can be built iff the list holding only it can |
| Operations.NewNullableDestination | src/EmitMapper/AST/Nodes/AstNewObject.cs:31-55 | a Nullable<T> destination is created holding T's default |
| Ast.OperationDelegate | EmitMapper/EmitBuilders/MappingOperationsProcessor.cs:68-82 | reading a delegate property of a stored operation succeeds iff the slot holds an operation with that property set |
| Ast.StoredDelegateAt | EmitMapper/EmitBuilders/MappingOperationsProcessor.cs:68-82 | reading a stored delegate succeeds iff the slot holds a delegate |
| Ast.StoredMapperAt | EmitMapper/EmitBuilders/MappingOperationsProcessor.cs:585-607 | reading a stored mapper succeeds iff the slot holds a mapper |
| Processor.ReadSrcMappingValue | EmitMapper/EmitBuilders/MappingOperationsProcessor.cs:630-650 | a source-reading operation reads its source chain, a destination write calls its getter; any other throws, "Invalid mapping operations" for a destination write without getter |
| Processor.ProcessDestWriteOperation | EmitMapper/EmitBuilders/MappingOperationsProcessor.cs:150-200 | processing succeeds iff the getter is set |
| Processor.ProcessSrcReadOperation | EmitMapper/EmitBuilders/MappingOperationsProcessor.cs:202-209 | processing succeeds iff the setter is set; a null setter throws NullReference when its type is read (line 528) |
| Processor.ProcessDestSrcReadOperation | EmitMapper/EmitBuilders/MappingOperationsProcessor.cs:609-628 | processing succeeds iff the value processor is set; a null one throws NullReference when its type is read (line 623) |
| Processor.LowerNullValue | EmitMapper/EmitBuilders/MappingOperationsProcessor.cs:463-478 | a substitutor is stored, and only then |
| Processor.LowerByMapper | EmitMapper/EmitBuilders/MappingOperationsProcessor.cs:585-607 | succeeds iff GetMapperInt builds the mapper for the member types, and then stores it; otherwise throws GetMapperInt's exception with nothing stored |
| Processor.LowerConversion | EmitMapper/EmitBuilders/MappingOperationsProcessor.cs:541-583 | fails only when conversion falls through to a nested mapper that cannot be built, with that build's exception; the store grows only when it falls through to the mapper |
| Processor.LowerSimple | EmitMapper/EmitBuilders/MappingOperationsProcessor.cs:119-148 | a simple copy succeeds iff its nested mapper, if needed, can be built (else that exception), and stores what StoredBy predicts after the operation |
| Processor.LowerConverted | EmitMapper/EmitBuilders/MappingOperationsProcessor.cs:123-140 | succeeds iff the nested mapper, if needed, can be built; the written value stores the substitutor (when it replaces a null source) before what the conversion stores, as StoredBy predicts |
| Processor.LowerCopying | EmitMapper/EmitBuilders/MappingOperationsProcessor.cs:284-441 | succeeds iff the nested operations do; the store grows by substitutor, constructor, nested operations and post-processor, in that order |
| Processor.LowerInit | EmitMapper/EmitBuilders/MappingOperationsProcessor.cs:309-327 | a target constructor is stored and called; without one the destination is default-constructed and nothing is stored |
| Processor.LowerPostProcessor | EmitMapper/EmitBuilders/MappingOperationsProcessor.cs:401-411 | a post-processor is stored, and only then is there a slot to call |
| Processor.LowerComplex | EmitMapper/EmitBuilders/MappingOperationsProcessor.cs:211-222 | succeeds iff the operation is well formed; the store grows by StoredBy |
| Processor.LowerOne | EmitMapper/EmitBuilders/MappingOperationsProcessor.cs:87-114 | one loop step: succeeds iff well formed, stores StoredBy(op), produces no node exactly for other operations, and wraps with the operation's own index |
| Processor.LowerKind | EmitMapper/EmitBuilders/MappingOperationsProcessor.cs:91-101 | the switch on the operation kind: succeeds iff well formed (no null getter, setter or value processor, nested mappers buildable), stores StoredBy(op), and yields no node exactly for an operation of another kind |
| Processor.LowerBlock | EmitMapper/EmitBuilders/MappingOperationsProcessor.cs:93-94 | a block succeeds iff its operations are well formed, yields a node, and stores what they store after itself |
| Processor.LowerComplexStep | EmitMapper/EmitBuilders/MappingOperationsProcessor.cs:95 | a complex copy succeeds iff well formed, yields a node, and stores StoredBy(op) |
| Processor.LowerSimpleStep | EmitMapper/EmitBuilders/MappingOperationsProcessor.cs:100 | a simple copy succeeds iff its nested mapper, if needed, can be built, else throws that build's exception; on success it yields a node and stores StoredBy(op) |
| Processor.NodesOf | EmitMapper/EmitBuilders/MappingOperationsProcessor.cs:103 | a skipped operation adds no node |
| Processor.LowerOps | EmitMapper/EmitBuilders/MappingOperationsProcessor.cs:84-117 | processing a list succeeds iff every operation in it is well formed (getters, setters and value processors set, nested mappers buildable); the store grows by StoredByAll; at most one node per operation |
| Processor.PrependStep | EmitMapper/EmitBuilders/MappingOperationsProcessor.cs:87-114 | one loop iteration: a failing operation ends processing with its error; otherwise its node joins the nodes so far and the loop goes on after what it stored |
| Processor.StoredObjects.constructor | EmitMapper/EmitBuilders/MappingOperationsProcessor.cs:35 | StoredObjects starts empty |
| Processor.MappingOperationsProcessor.constructor | EmitMapper/EmitBuilders/MappingOperationsProcessor.cs:53-66 | a nested processor shares StoredObjects and LocException |
| Processor.MappingOperationsProcessor.AddObjectToStore | EmitMapper/EmitBuilders/MappingOperationsProcessor.cs:480-485 | appends and returns the new index |
| Processor.MappingOperationsProcessor.GetNullValue | EmitMapper/EmitBuilders/MappingOperationsProcessor.cs:463-478 | equals LowerNullValue: a stored substitutor call, or the null constant |
| Processor.MappingOperationsProcessor.ConvertByMapper | EmitMapper/EmitBuilders/MappingOperationsProcessor.cs:585-607 | equals LowerByMapper: a mapper that cannot be built throws before anything is stored |
| Processor.MappingOperationsProcessor.ConvertMappingValue | EmitMapper/EmitBuilders/MappingOperationsProcessor.cs:541-583 | equals LowerConversion, including its failure; the store only grows |
| Processor.MappingOperationsProcessor.ProcessReadWriteSimple | EmitMapper/EmitBuilders/MappingOperationsProcessor.cs:119-148 | equals LowerSimple, including its failure; the store only grows |
| Processor.MappingOperationsProcessor.ProcessReadWriteComplex | EmitMapper/EmitBuilders/MappingOperationsProcessor.cs:211-222 | equals LowerComplex; the store only grows |
| Processor.MappingOperationsProcessor.ProcessReadWriteComplexCopying | EmitMapper/EmitBuilders/MappingOperationsProcessor.cs:284-441 | equals LowerCopying; the store only grows |
| Processor.MappingOperationsProcessor.GetInitDestination | EmitMapper/EmitBuilders/MappingOperationsProcessor.cs:309-327 | equals LowerInit |
| Processor.MappingOperationsProcessor.GetPostProcessor | EmitMapper/EmitBuilders/MappingOperationsProcessor.cs:401-411 | equals LowerPostProcessor |
| Processor.MappingOperationsProcessor.ProcessOperation | EmitMapper/EmitBuilders/MappingOperationsProcessor.cs:87-114 | equals LowerOne: fails iff the operation is not well formed |
| Processor.MappingOperationsProcessor.ProcessOperations | EmitMapper/EmitBuilders/MappingOperationsProcessor.cs:84-117 | the loop's complex node and the store equal LowerOps |
| Building.Build | EmitMapper/EmitBuilders/MappingOperationsProcessor.cs:84-117 | a built mapper's code is what processing produced |
| Building.BuildSucceeds | EmitMapper/EmitBuilders/MappingOperationsProcessor.cs:309-327 | a mapper is built iff processing succeeds (no null getter, setter or value processor, every nested mapper buildable) and every type its code creates can be created; a processing failure comes first, otherwise the error is that of the first uncreatable type in code order |
| Building.UncreatableDestinationHasNoMapper | src/EmitMapper/AST/Nodes/AstNewObject.cs:68-83 | a complex copy into a reference type with neither a target constructor nor a constructor for no parameters yields no mapper, and the error names the type |
| Building.EmitAllAppend | EmitMapper/EmitBuilders/MappingOperationsProcessor.cs:84-117 | code is emitted in order: the second part only when the first emits |
| Building.EmitSingle | EmitMapper/EmitBuilders/MappingOperationsProcessor.cs:84-117 | a one-node list emits as its node |
| Building.EmitReads | EmitMapper/EmitBuilders/MappingOperationsProcessor.cs:630-650 | member reads and the state always emit |
| Building.EmitConversion | EmitMapper/EmitBuilders/MappingOperationsProcessor.cs:541-607 | conversion code that was produced always emits |
| Building.EmitFiltered | EmitMapper/EmitBuilders/MappingOperationsProcessor.cs:224-282 | filters change nothing about emission |
| Building.EmitNullValue | EmitMapper/EmitBuilders/MappingOperationsProcessor.cs:463-478 | the null-value code always emits |
| Building.EmitInit | EmitMapper/EmitBuilders/MappingOperationsProcessor.cs:309-327 | the destination-creation code emits iff there is a target constructor or the type can be created; otherwise it fails naming the type |
| Building.EmitSimple | EmitMapper/EmitBuilders/MappingOperationsProcessor.cs:119-148 | the code of a simple copy that was processed always emits |
| Building.EmitCopying | EmitMapper/EmitBuilders/MappingOperationsProcessor.cs:284-441 | a copy node emits its own destination's creation, then its nested operations' creations |
| Building.EmitComplex | EmitMapper/EmitBuilders/MappingOperationsProcessor.cs:211-222 | a complex copy emits its Creations; with a converter it creates nothing |
| Building.EmitKind | EmitMapper/EmitBuilders/MappingOperationsProcessor.cs:91-101 | the node the switch yields emits the operation's Creations |
| Building.EmitOne | EmitMapper/EmitBuilders/MappingOperationsProcessor.cs:87-114 | the code for one operation, wrapped or not, emits its Creations |
| Building.EmitOps | EmitMapper/EmitBuilders/MappingOperationsProcessor.cs:84-117 | the code for a list emits the creations of its operations, in list order |
| Meaning.ExecFiltered | EmitMapper/EmitBuilders/MappingOperationsProcessor.cs:224-282 | filter nodes run the body only when the destination filter, then the source filter, accept |
| Meaning.ExecIfFilter | EmitMapper/EmitBuilders/MappingOperationsProcessor.cs:224-282 | one filter node tests the filter stored in the operation with the member it reads, and runs its body only when that filter accepts |
| Meaning.ExecSimple | EmitMapper/EmitBuilders/MappingOperationsProcessor.cs:119-148 | the code of a simple copy does what the operation means |
| Meaning.ConvertedCode | EmitMapper/EmitBuilders/MappingOperationsProcessor.cs:123-140 | the value code of a simple copy computes SimpleValue: the substitutor for an absent source, otherwise the conversion |
| Meaning.ExecConversion | EmitMapper/EmitBuilders/MappingOperationsProcessor.cs:541-607 | the conversion code computes Convert |
| Meaning.ExecCopying | EmitMapper/EmitBuilders/MappingOperationsProcessor.cs:284-441 | the code of a complex copy does Copy |
| Meaning.NullValueCode | EmitMapper/EmitBuilders/MappingOperationsProcessor.cs:463-478 | the null value code calls the stored substitutor with the state, or yields null |
| Meaning.InitCode | EmitMapper/EmitBuilders/MappingOperationsProcessor.cs:309-327 | the destination-initialisation code does Created: the target constructor, or the constructor for no parameters, or a value type's default |
| Meaning.PostCode | EmitMapper/EmitBuilders/MappingOperationsProcessor.cs:401-411 | the post-processing code does PostProcessed for every value |
| Meaning.ExecCopyNode | EmitMapper/EmitBuilders/MappingOperationsProcessor.cs:292-439 | a copy node with the operation's flags, values and nested code does Copy |
| Meaning.ExecComplex | EmitMapper/EmitBuilders/MappingOperationsProcessor.cs:211-222 | the code of a complex operation does what it means |
| Meaning.ExecOne | EmitMapper/EmitBuilders/MappingOperationsProcessor.cs:87-114 | the code for one operation, wrapped or not, does Run |
| Meaning.ExecKind | EmitMapper/EmitBuilders/MappingOperationsProcessor.cs:91-101 | the node the switch yields for an operation does RunOp; an operation without a node changes nothing |
| Meaning.ExecAllMeans | EmitMapper/EmitBuilders/MappingOperationsProcessor.cs:84-117 | the code for a list does RunAll, for any StoredObjects extending what was stored |
| Meaning.RunAllStep | EmitMapper/EmitBuilders/MappingOperationsProcessor.cs:87-114 | one operation runs, then the rest on its result, after its stored objects |
| Meaning.ExecAllPrefix | EmitMapper/EmitBuilders/MappingOperationsProcessor.cs:103-113 | a skipped operation's missing node changes nothing |
| Meaning.EvalPair | EmitMapper/EmitBuilders/MappingOperationsProcessor.cs:246-282 | two call arguments evaluate left to right |
| Meaning.EvalSingle | EmitMapper/EmitBuilders/MappingOperationsProcessor.cs:463-478 | one call argument evaluates to itself |
| Meaning.GeneratedCodeMeaning | EmitMapper/EmitBuilders/MappingOperationsProcessor.cs:84-117 | a mapper that is built can be built by BuildableAll, and its code does exactly RunAll |
| Meaning.GeneratedOne | EmitMapper/EmitBuilders/MappingOperationsProcessor.cs:84-117 | a buildable operation yields a mapper, and its code does Run |
| MapperBehaviour.ConversionPrecedence | EmitMapper/EmitBuilders/MappingOperationsProcessor.cs:541-607 | a mapper is built iff the nested mapper, when needed, can be built, and otherwise the error is that build's exception; conversion order: converter(source, state); the source for a shallow copy of equal types; a static converter; the nested mapper given the source and destination members |
| MapperBehaviour.NullSubstitution | EmitMapper/EmitBuilders/MappingOperationsProcessor.cs:125-139 | the copy is built iff its nested mapper, when needed, can be built, even where the substitutor would replace the value; an absent source writes substitutor(state); a present source is converted as if there were no substitutor; a non-nullable value-type source never uses it |
| MapperBehaviour.WithoutSubstitutor | EmitMapper/EmitBuilders/MappingOperationsProcessor.cs:138-139 | the operation without a substitutor is a simple copy with none |
| MapperBehaviour.Unfiltered | EmitMapper/EmitBuilders/MappingOperationsProcessor.cs:143-146 | the operation without filters keeps its kind |
| MapperBehaviour.FiltersGuardTheWrite | EmitMapper/EmitBuilders/MappingOperationsProcessor.cs:224-282 | a rejecting destination filter, or an accepting one and a rejecting source filter, leave the destination unchanged |
| MapperBehaviour.AcceptingFiltersActAsNone | EmitMapper/EmitBuilders/MappingOperationsProcessor.cs:143-146 | when both filters accept, the operation does what it does without filters |
| MapperBehaviour.SimpleFiltersWrap | EmitMapper/EmitBuilders/MappingOperationsProcessor.cs:143-146 | a simple copy means its unfiltered meaning inside its destination and source filters |
| MapperBehaviour.ComplexFiltersWrap | EmitMapper/EmitBuilders/MappingOperationsProcessor.cs:211-222 | a complex copy means its unfiltered meaning inside its destination and source filters |
| MapperBehaviour.ComplexByConverter | EmitMapper/EmitBuilders/MappingOperationsProcessor.cs:443-461 | a complex copy with a converter writes converter(source, state) and ignores its nested operations |
| MapperBehaviour.ComplexAbsentSource | EmitMapper/EmitBuilders/MappingOperationsProcessor.cs:301-307 | an absent source writes substitutor(state) or null, and constructs nothing |
| MapperBehaviour.ComplexCopiesIntoDestination | EmitMapper/EmitBuilders/MappingOperationsProcessor.cs:309-417 | a buildable copy yields a mapper and has a target constructor or a constructor for no parameters; an existing destination member is reused, a null one created by the target constructor or the constructor for no parameters; nested operations run on both members; the post-processor applies; the result is written back |
| MapperBehaviour.NullableMembersAreUnwrapped | EmitMapper/EmitBuilders/MappingOperationsProcessor.cs:332-370 | Nullable members are unwrapped for the nested operations and the result is wrapped again |
| MapperBehaviour.DestWriteHonoursAction | EmitMapper/EmitBuilders/MappingOperationsProcessor.cs:150-200 | the getter is called with (from, state); its value is written iff Action is 0 |
| MapperBehaviour.MissingGetterFailsProcessing | EmitMapper/EmitBuilders/MappingOperationsProcessor.cs:150-153 | a destination write without getter anywhere in the list makes processing fail, so no mapper is built |
| MapperBehaviour.IllFormedFailsProcessing | EmitMapper/EmitBuilders/MappingOperationsProcessor.cs:84-117 | any operation that cannot be processed (null getter, setter or value processor, unbuildable nested mapper), wherever it stands, makes processing and building fail |
| MapperBehaviour.SingleFailure | EmitMapper/EmitBuilders/MappingOperationsProcessor.cs:84-117 | a single operation that cannot be processed yields no mapper, with the exception its processing throws |
| MapperBehaviour.WellFormedAllAt | EmitMapper/EmitBuilders/MappingOperationsProcessor.cs:84-117 | every operation of a well-formed list is well formed |
| MapperBehaviour.DestSrcReadReadsBothFromSource | EmitMapper/EmitBuilders/MappingOperationsProcessor.cs:609-628 | a mapper is built iff the value processor is set, else the error is NullReference; the value processor gets (source member, member read from the source along the destination chain, state); the destination is unchanged |
| MapperBehaviour.SrcReadCallsSetter | EmitMapper/EmitBuilders/MappingOperationsProcessor.cs:202-209 | a mapper is built iff the setter is set, else the error is NullReference; the setter gets (to, source member, state) |
| MapperBehaviour.OtherOperationDoesNothing | EmitMapper/EmitBuilders/MappingOperationsProcessor.cs:100-103 | an operation of another kind leaves the destination unchanged |
| MapperBehaviour.OperationsRunInOrder | EmitMapper/EmitBuilders/MappingOperationsProcessor.cs:87-114 | ops1 + ops2 runs ops1 then ops2 on its result, with ops2's indices after ops1's stored objects |
| MapperBehaviour.StoredByAllAppend | EmitMapper/EmitBuilders/MappingOperationsProcessor.cs:87-89 | a list stores what its first part stores, then what its second part stores |
| MapperBehaviour.FailuresNameTheirOperation | EmitMapper/EmitBuilders/MappingOperationsProcessor.cs:487-515 | with wrapping, a failure is an EmitMapperException with the fixed message whose index names a stored operation |
| MapperBehaviour.WrappedFailure | EmitMapper/EmitBuilders/MappingOperationsProcessor.cs:105-113 | a wrapped failure carries the operation's own index and the original exception |
| MapperBehaviour.GeneratedFailuresNameTheirOperation | EmitMapper/EmitBuilders/MappingOperationsProcessor.cs:487-515 | the code of a built mapper with exception handling reports failures that way |
| MapperBehaviour.RunOpIndexFree | EmitMapper/EmitBuilders/MappingOperationsProcessor.cs:84-117 | without wrapping, the stored-object index does not change what an operation does |
| MapperBehaviour.RunAllIndexFree | EmitMapper/EmitBuilders/MappingOperationsProcessor.cs:84-117 | the same for a list |
| MapperBehaviour.BlockIsTransparent | EmitMapper/EmitBuilders/MappingOperationsProcessor.cs:93-94 | without wrapping, a block is built exactly when its operations are, and does what they do in its place |
| MapperBehaviour.ReadSrcMappingValueReads | EmitMapper/EmitBuilders/MappingOperationsProcessor.cs:630-650 | the source value reads the source chain, or calls the getter with the state |

## Left out

- Emission of IL is modelled only as success or failure (`Building.Build`). Generated code is a node tree with a run-time meaning; `AstNewObject` emits an abstract instruction list. Only the creation of a missing destination can fail to emit; the other nodes' IL is not modelled.
- The caller that emits the processed code into a method body is not part of this model; `Building.Build` takes its place.
- Casts (`CastClass`, `AstCastclass`) are not modelled: values are untyped.
- Reference aliasing is not modelled: objects are value trees, and a write produces the new destination object.
- Writes made before an exception are not kept.
- Concurrency is not modelled: `ThreadSaveCache` and the collection mapper's `IsSupportedCache` are sequential maps. The cache of `IsSupportedType` is not modelled, only its predicate.
- The construction of `MapperForCollection` subclasses (`CreateInstance`, the type builder and `InvokeCopyImpl`) is not modelled. `CopyToListInvoke` and `CopyToListScalarInvoke` are taken to call `CopyToList` and `CopyToListScalar`.
- `ObjectFactory.CreateInstance` and `Mapper.GetMapper` are parameters of the collection host.
- `AsEnumerable` of a non-enumerable source is taken to yield the source alone.
- Map: `base.Map(from, null, state)` is taken to call `MapImpl(from, null, state)`; `ObjectsMapperBaseImpl` is not part of this model.
- Reflection is a parameter: value types, constructor lookup, static converters, and the exception, if any, that `ObjectsMapperManager.GetMapperInt` throws while building a nested mapper (its building is not part of this model). This includes `IsGeneralType`'s generic-definition and assignability tests.
- Exceptions thrown by user delegates are opaque codes.
- `RootOperation`, `MappingConfigurator`, the `CompilationContext` and the locals are not modelled beyond the flags they supply.
- The nested `AstComplexNode` wrappers are flattened.
- Value processors are called for their effect on the outside world, which is not modelled. `DestSrcReadOperation` therefore leaves the destination unchanged.
- A setter returns the updated destination.
- `ReadSrcMappingValue` of an operation that is neither a source reader nor a destination write throws InvalidCast in the model. The code casts to `DestWriteOperation` and fails there.
- The ordering of an exception from the parent chain against one from the value, in a member-chain write, is not modelled. The value is evaluated first.
- `TypeDictionary.ToString` and the `Equals(object)`/`GetHashCode` overrides are not modelled. `List.Contains` and `List.Remove` use the `IEquatable` `Equals`.

## Findings

| source | as written | input that shows it | evidently intended | confidence | as-written member | corrected member |
|---|---|---|---|---|---|---|
| src/EmitMapper/AST/Nodes/AstNewObject.cs:64-79 | the constructor parameters are compiled before the lookup; when no constructor matches a value type, its default is pushed on top of them | `new AstNewObject(S, [p])` for a struct S without a constructor taking p's type: two values are left on the stack instead of one | the node leaves exactly one value, so the parameters are not compiled on the fallback path | not executed | NewObjects.ValueTypeFallbackLeavesParameters | NewObjects.FixedPushesOneValue |
