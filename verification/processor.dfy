/**
  MappingOperationsProcessor: turns a list of mapping operations into the
  code of a mapper, registering in StoredObjects every object that code
  reads back at run time.

  The functions Lower* say, for a StoredObjects list before processing,
  which code is produced and what StoredObjects holds afterwards; the
  methods of the class do the same work step by step on a shared
  StoredObjects list and are proved to agree with them.
 */
module Processor {
  import opened Values
  import opened Operations
  import opened Ast

  /** Something produced while processing, with the StoredObjects list afterwards. */
  datatype Lowered<T> = Lowered(value: T, stored: seq<Stored>)

  /** The operations that read a source member (ISrcReadOperation). */
  predicate HasSource(op: MappingOperation) {
    op.SrcReadOperation? || op.ReadWriteSimple? || op.ReadWriteComplex? || op.DestSrcReadOperation?
  }

  // ------------------------------------------------ code of single operations

  /**
    ReadSrcMappingValue: the source member of a source-reading operation, the
    getter's result for a destination write with a getter.  Any other
    operation fails the cast to DestWriteOperation, and a destination write
    without a getter is rejected as invalid.
   */
  function ReadSrcMappingValue(op: MappingOperation, operationId: nat): (r: Result<Expr>)
    ensures r.Ok? <==> HasSource(op) || (op.DestWriteOperation? && op.getter.Some?)
    ensures op.DestWriteOperation? && op.getter.None? ==> r == Throw(InvalidMappingOperations)
  {
    if HasSource(op) then Ok(ReadMembers(From, op.source.membersChain))
    else if !op.DestWriteOperation? then Throw(InvalidCast)
    else if op.getter.Some? then Ok(InvokeOperationDelegate(operationId, Getter, [ReadState]))
    else Throw(InvalidMappingOperations)
  }

  /** WriteMappingValue: a source read hands the value to its setter, anything else writes its destination member. */
  function WriteMappingValue(op: MappingOperation, operationId: nat, value: Expr): Node
    requires op.SrcReadOperation? || op.ReadWriteSimple?
  {
    if op.SrcReadOperation? then InvokeSetter(operationId, value)
    else WriteMembers(op.destination.membersChain, value)
  }

  /** Process_ValuesFilter: `result` runs only when the filter stored in the operation accepts (value, LocState). */
  function ProcessValuesFilter(operationId: nat, field: DelegateField, value: Expr, result: Node): Node {
    IfFilter(operationId, field, value, result)
  }

  /** Process_SourceFilter: the filter is given the source member. */
  function ProcessSourceFilter(op: MappingOperation, operationId: nat, result: Node): Node
    requires op.ReadWriteSimple? || op.ReadWriteComplex?
  {
    ProcessValuesFilter(operationId, SourceFilter, ReadMembers(From, op.source.membersChain), result)
  }

  /** Process_DestinationFilter: the filter is given the current destination member. */
  function ProcessDestinationFilter(op: MappingOperation, operationId: nat, result: Node): Node
    requires op.ReadWriteSimple? || op.ReadWriteComplex?
  {
    ProcessValuesFilter(operationId, DestinationFilter, ReadMembers(To, op.destination.membersChain), result)
  }

  /** The source filter is applied first, so the destination filter is the outer test. */
  function Filtered(op: MappingOperation, operationId: nat, result: Node): Node
    requires op.ReadWriteSimple? || op.ReadWriteComplex?
  {
    var withSource := if op.sourceFilter.Some? then ProcessSourceFilter(op, operationId, result) else result;
    if op.destinationFilter.Some? then ProcessDestinationFilter(op, operationId, withSource) else withSource
  }

  /** Process_ReadWriteComplex_ByConverter: the destination member is set to Converter(source member, LocState). */
  function ProcessReadWriteComplexByConverter(op: MappingOperation, operationId: nat): Node
    requires op.ReadWriteComplex?
  {
    WriteMembers(op.destination.membersChain,
      InvokeOperationDelegate(operationId, Converter, [ReadMembers(From, op.source.membersChain), ReadState]))
  }

  /**
    ProcessDestWriteOperation: call the getter with (LocFrom, LocState) and
    write its Value when its Action is 0.  Reading the getter's method fails
    with a null reference when there is no getter.
   */
  function ProcessDestWriteOperation(op: MappingOperation, operationId: nat): (r: Result<Node>)
    requires op.DestWriteOperation?
    ensures r.Ok? <==> op.getter.Some?
  {
    if op.getter.None? then Throw(NullReference)
    else Ok(WriteGetterValue(operationId, op.destination.membersChain))
  }

  /**
    ProcessSrcReadOperation: the source member is handed to the setter.
    Reading the type of a null setter, to cast the stored one, fails with a
    null reference.
   */
  function ProcessSrcReadOperation(op: MappingOperation, operationId: nat): (r: Result<Node>)
    requires op.SrcReadOperation?
    ensures r.Ok? <==> op.setter.Some?
    ensures r.Throw? ==> r.error == NullReference
  {
    if op.setter.None? then Throw(NullReference)
    else Ok(WriteMappingValue(op, operationId, ReadMembers(From, op.source.membersChain)))
  }

  /**
    ProcessDestSrcReadOperation: both members are read from LocFrom and
    given to the value processor; a null value processor fails with a null
    reference when its type is read.
   */
  function ProcessDestSrcReadOperation(op: MappingOperation, operationId: nat): (r: Result<Node>)
    requires op.DestSrcReadOperation?
    ensures r.Ok? <==> op.valueProcessor.Some?
    ensures r.Throw? ==> r.error == NullReference
  {
    if op.valueProcessor.None? then Throw(NullReference)
    else Ok(InvokeValueProcessor(operationId, ReadMembers(From, op.source.membersChain), ReadMembers(From, op.destination.membersChain)))
  }

  /** CreateExceptionHandlingBlock: the node inside a try/catch that rethrows with the operation's index. */
  function CreateExceptionHandlingBlock(mappingItemId: nat, writeValue: Node): Node {
    CatchAndWrap(mappingItemId, writeValue)
  }

  // ---------------------------------------- what processing does, as functions

  /** GetNullValue: a call of the stored substitutor with LocState, or the null constant. */
  function LowerNullValue(nullSubstitutor: Option<nat>, stored: seq<Stored>): (r: Lowered<Expr>)
    ensures r.stored == stored + StoredDelegates(nullSubstitutor)
  {
    match nullSubstitutor
    case Some(s) => Lowered(InvokeStoredDelegate(|stored|, [ReadState]), stored + [StoredDelegate(s)])
    case None => Lowered(NullConstant, stored)
  }

  /**
    ConvertByMapper: the mapper for the member types is obtained, stored and
    called with both members and LocState.  Obtaining it builds it, and an
    exception from that build ends processing before anything is stored.
   */
  function LowerByMapper(refl: Reflection, op: MappingOperation, stored: seq<Stored>): (r: Result<Lowered<Expr>>)
    requires op.ReadWriteSimple?
    ensures r.Ok? <==> refl.mapperFailure(op.source.memberType, op.destination.memberType).None?
    ensures r.Throw? ==> r.error == refl.mapperFailure(op.source.memberType, op.destination.memberType).value
    ensures r.Ok? ==> r.value.stored == stored + [StoredMapper(op.source.memberType, op.destination.memberType)]
  {
    match refl.mapperFailure(op.source.memberType, op.destination.memberType)
    case Some(e) => Throw(e)
    case None =>
      Ok(Lowered(
        CallMapper(|stored|, ReadMembers(From, op.source.membersChain), ReadMembers(To, op.destination.membersChain)),
        stored + [StoredMapper(op.source.memberType, op.destination.memberType)]))
  }

  /** ConvertMappingValue: converter, else shallow identity, else static converter, else nested mapper. */
  function LowerConversion(refl: Reflection, op: MappingOperation, operationId: nat, sourceValue: Expr, stored: seq<Stored>)
    : (r: Result<Lowered<Expr>>)
    requires op.ReadWriteSimple?
    ensures r.Ok? <==> MapperAvailable(refl, op)
    ensures r.Throw? ==> r.error == refl.mapperFailure(op.source.memberType, op.destination.memberType).value
    ensures r.Ok? ==> r.value.stored == stored + (if ConvertsByMapper(refl, op) then [StoredMapper(op.source.memberType, op.destination.memberType)] else [])
  {
    if op.converter.Some? then Ok(Lowered(InvokeOperationDelegate(operationId, Converter, [sourceValue, ReadState]), stored))
    else if op.shallowCopy && op.destination.memberType == op.source.memberType then Ok(Lowered(sourceValue, stored))
    else match refl.staticConverter(op.source.memberType, op.destination.memberType)
      case Some(m) => Ok(Lowered(CallStaticConverter(m, sourceValue), stored))
      case None => LowerByMapper(refl, op, stored)
  }

  /**
    ProcessReadWriteSimple: null substitution and conversion, the write, then
    the filters.  It fails only when the nested mapper cannot be built.
   */
  function LowerSimple(refl: Reflection, op: MappingOperation, operationId: nat, stored: seq<Stored>): (r: Result<Lowered<Node>>)
    requires op.ReadWriteSimple?
    ensures r.Ok? <==> MapperAvailable(refl, op)
    ensures r.Throw? ==> r.error == refl.mapperFailure(op.source.memberType, op.destination.memberType).value
    ensures r.Ok? ==> r.value.stored == stored + StoredBy(refl, op)[1..]
  {
    var sourceValue := ReadSrcMappingValue(op, operationId).value;
    var converted :- LowerConverted(refl, op, operationId, sourceValue, stored);
    Ok(Lowered(Filtered(op, operationId, WriteMappingValue(op, operationId, converted.value)), converted.stored))
  }

  /** The value a simple copy writes: the converted source, or the substitutor's value when the source is absent. */
  function LowerConverted(refl: Reflection, op: MappingOperation, operationId: nat, sourceValue: Expr, stored: seq<Stored>): (r: Result<Lowered<Expr>>)
    requires op.ReadWriteSimple?
    ensures r.Ok? <==> MapperAvailable(refl, op)
    ensures r.Throw? ==> r.error == refl.mapperFailure(op.source.memberType, op.destination.memberType).value
    ensures r.Ok? ==> r.value.stored == stored + StoredBy(refl, op)[1..]
  {
    if SubstitutesNull(refl, op) then
      var nullValue := LowerNullValue(op.nullSubstitutor, stored);
      var present :- LowerConversion(refl, op, operationId, sourceValue, nullValue.stored);
      Ok(Lowered(IfAbsent(IsNullable(op.source.memberType), sourceValue, nullValue.value, present.value), present.stored))
    else LowerConversion(refl, op, operationId, sourceValue, stored)
  }

  /**
    Process_ReadWriteComplex_Copying: the null value, the target
    constructor, the nested operations and the post-processor are
    registered in that order, and one copy node is produced.
   */
  function LowerCopying(refl: Reflection, op: MappingOperation, stored: seq<Stored>, wrap: bool): (r: Result<Lowered<Node>>)
    requires op.ReadWriteComplex?
    decreases op, 1
    ensures r.Ok? <==> WellFormedAll(refl, op.operations)
    ensures r.Ok? ==> r.value.stored == stored + StoredDelegates(op.nullSubstitutor) + StoredDelegates(op.targetConstructor)
                                       + StoredByAll(refl, op.operations) + StoredDelegates(op.valuesPostProcessor)
  {
    var sourceType := op.source.memberType;
    var destinationType := op.destination.memberType;
    var nullValue := LowerNullValue(op.nullSubstitutor, stored);
    var init := LowerInit(op, nullValue.stored);
    var nested :- LowerOps(refl, op.operations, init.stored, wrap);
    var post := LowerPostProcessor(op.valuesPostProcessor, nested.stored);
    Ok(Lowered(
      CopyComplex(
        op.source.membersChain, op.destination.membersChain,
        IsNullable(sourceType), IsNullable(sourceType) || !refl.isValueType(sourceType),
        IsNullable(destinationType), IsNullable(destinationType) || !refl.isValueType(destinationType),
        nullValue.value, init.value, nested.value, post.value),
      post.stored))
  }

  /** The creation of a missing destination: the stored target constructor called, or default construction. */
  function LowerInit(op: MappingOperation, stored: seq<Stored>): (r: Lowered<Expr>)
    requires op.ReadWriteComplex?
    ensures r.stored == stored + StoredDelegates(op.targetConstructor)
    ensures op.targetConstructor.None? ==> r.value == NewDefault(op.destination.memberType)
  {
    if op.targetConstructor.Some? then
      Lowered(InvokeStoredDelegate(|stored|, []), stored + [StoredDelegate(op.targetConstructor.value)])
    else Lowered(NewDefault(op.destination.memberType), stored)
  }

  /** The slot of the values post-processor, stored when there is one. */
  function LowerPostProcessor(postProcessor: Option<nat>, stored: seq<Stored>): (r: Lowered<Option<nat>>)
    ensures r.stored == stored + StoredDelegates(postProcessor)
    ensures r.value.Some? <==> postProcessor.Some?
  {
    if postProcessor.Some? then Lowered(Some(|stored|), stored + [StoredDelegate(postProcessor.value)])
    else Lowered(None, stored)
  }

  /** Process_ReadWriteComplex: by converter or by copying, then the filters. */
  function LowerComplex(refl: Reflection, op: MappingOperation, operationId: nat, stored: seq<Stored>, wrap: bool)
    : (r: Result<Lowered<Node>>)
    requires op.ReadWriteComplex?
    decreases op, 2
    ensures r.Ok? <==> WellFormed(refl, op)
    ensures r.Ok? ==> r.value.stored == stored + StoredBy(refl, op)[1..]
  {
    var result :-
      if op.converter.Some? then Ok(Lowered(ProcessReadWriteComplexByConverter(op, operationId), stored))
      else LowerCopying(refl, op, stored, wrap);
    Ok(Lowered(Filtered(op, operationId, result.value), result.stored))
  }

  /**
    The code ProcessOperations' switch yields for one operation, whose
    StoredObjects index is |stored|: no code for an operation of another kind.
   */
  function LowerKind(refl: Reflection, op: MappingOperation, stored: seq<Stored>, wrap: bool): (r: Result<Lowered<Option<Node>>>)
    decreases op, 4
    ensures r.Ok? <==> WellFormed(refl, op)
    ensures r.Ok? ==> r.value.stored == stored + StoredBy(refl, op)
    ensures r.Ok? ==> (r.value.value.None? <==> op.OtherOperation?)
  {
    var operationId := |stored|;
    var withOp := stored + [StoredOperation(op)];
    match op
    case OperationsBlock(_) => LowerBlock(refl, op, stored, wrap)
    case ReadWriteComplex(_, _, _, _, _, _, _, _, _) => LowerComplexStep(refl, op, stored, wrap)
    case DestSrcReadOperation(_, _, _) =>
      var read :- ProcessDestSrcReadOperation(op, operationId);
      Ok(Lowered(Some(read), withOp))
    case SrcReadOperation(_, _) =>
      var read :- ProcessSrcReadOperation(op, operationId);
      Ok(Lowered(Some(read), withOp))
    case DestWriteOperation(_, _) =>
      var write :- ProcessDestWriteOperation(op, operationId);
      Ok(Lowered(Some(write), withOp))
    case ReadWriteSimple(_, _, _, _, _, _, _) => LowerSimpleStep(refl, op, stored)
    case OtherOperation => Ok(Lowered(None, withOp))
  }

  /** A block: a nested processor's complex node, on the same StoredObjects. */
  function LowerBlock(refl: Reflection, op: MappingOperation, stored: seq<Stored>, wrap: bool): (r: Result<Lowered<Option<Node>>>)
    requires op.OperationsBlock?
    decreases op, 2
    ensures r.Ok? <==> WellFormed(refl, op)
    ensures r.Ok? ==> r.value.stored == stored + StoredBy(refl, op) && r.value.value.Some?
  {
    var block :- LowerOps(refl, op.operations, stored + [StoredOperation(op)], wrap);
    Ok(Lowered(Some(Complex(block.value)), block.stored))
  }

  /** A complex copy stored at index |stored|. */
  function LowerComplexStep(refl: Reflection, op: MappingOperation, stored: seq<Stored>, wrap: bool): (r: Result<Lowered<Option<Node>>>)
    requires op.ReadWriteComplex?
    decreases op, 3
    ensures r.Ok? <==> WellFormed(refl, op)
    ensures r.Ok? ==> r.value.stored == stored + StoredBy(refl, op) && r.value.value.Some?
  {
    var complex :- LowerComplex(refl, op, |stored|, stored + [StoredOperation(op)], wrap);
    Ok(Lowered(Some(complex.value), complex.stored))
  }

  /** A simple copy stored at index |stored|; it fails with the exception of a nested mapper that cannot be built. */
  function LowerSimpleStep(refl: Reflection, op: MappingOperation, stored: seq<Stored>): (r: Result<Lowered<Option<Node>>>)
    requires op.ReadWriteSimple?
    ensures r.Ok? <==> WellFormed(refl, op)
    ensures r.Throw? ==> r.error == refl.mapperFailure(op.source.memberType, op.destination.memberType).value
    ensures r.Ok? ==> r.value.stored == stored + StoredBy(refl, op) && r.value.value.Some?
  {
    var simple :- LowerSimple(refl, op, |stored|, stored + [StoredOperation(op)]);
    Ok(Lowered(Some(simple.value), simple.stored))
  }

  /**
    One step of ProcessOperations: the operation takes the next StoredObjects
    index, then yields a node (wrapped in an exception handler when
    `wrap`), or no node for an operation of another kind.
   */
  function LowerOne(refl: Reflection, op: MappingOperation, stored: seq<Stored>, wrap: bool): (r: Result<Lowered<Option<Node>>>)
    decreases op, 5
    ensures r.Ok? <==> WellFormed(refl, op)
    ensures r.Ok? ==> r.value.stored == stored + StoredBy(refl, op)
    ensures r.Ok? ==> (r.value.value.None? <==> op.OtherOperation?)
    ensures r.Ok? && wrap && r.value.value.Some? ==> r.value.value.value.CatchAndWrap? && r.value.value.value.slot == |stored|
  {
    var complete :- LowerKind(refl, op, stored, wrap);
    Ok(Lowered(
      if wrap && complete.value.Some? then Some(CreateExceptionHandlingBlock(|stored|, complete.value.value))
      else complete.value,
      complete.stored))
  }

  /** The nodes of an operation, none for an operation of another kind. */
  function NodesOf(n: Option<Node>): (r: seq<Node>)
    ensures |r| <= 1
  {
    if n.Some? then [n.value] else []
  }

  /** ProcessOperations: the operations in list order, each on the StoredObjects the previous one left. */
  function LowerOps(refl: Reflection, ops: seq<MappingOperation>, stored: seq<Stored>, wrap: bool): (r: Result<Lowered<seq<Node>>>)
    decreases ops, 0
    ensures r.Ok? <==> WellFormedAll(refl, ops)
    ensures r.Ok? ==> r.value.stored == stored + StoredByAll(refl, ops)
    ensures r.Ok? ==> |r.value.value| <= |ops|
  {
    if ops == [] then Ok(Lowered([], stored))
    else
      var first :- LowerOne(refl, ops[0], stored, wrap);
      var rest :- LowerOps(refl, ops[1..], first.stored, wrap);
      Ok(Lowered(NodesOf(first.value) + rest.value, rest.stored))
  }

  /** `nodes` followed by the nodes of `r`, or the failure of `r`. */
  function Prepend(nodes: seq<Node>, r: Result<Lowered<seq<Node>>>): Result<Lowered<seq<Node>>> {
    match r
    case Ok(l) => Ok(Lowered(nodes + l.value, l.stored))
    case Throw(e) => Throw(e)
  }

  /** Processing operation n extends the nodes so far, or makes the whole list fail. */
  lemma PrependStep(refl: Reflection, ops: seq<MappingOperation>, n: nat, nodes: seq<Node>, stored: seq<Stored>, wrap: bool)
    requires n < |ops|
    ensures var one := LowerOne(refl, ops[n], stored, wrap);
      && (one.Throw? ==> Prepend(nodes, LowerOps(refl, ops[n..], stored, wrap)) == Throw(one.error))
      && (one.Ok? ==> Prepend(nodes, LowerOps(refl, ops[n..], stored, wrap))
                      == Prepend(nodes + NodesOf(one.value.value), LowerOps(refl, ops[n + 1..], one.value.stored, wrap)))
  {
    assert ops[n..][0] == ops[n];
    assert ops[n..][1..] == ops[n + 1..];
    var one := LowerOne(refl, ops[n], stored, wrap);
    if one.Ok? {
      assert forall l: Lowered<seq<Node>> ::
        nodes + (NodesOf(one.value.value) + l.value) == (nodes + NodesOf(one.value.value)) + l.value;
    }
  }

  /** A method's outcome `r`, with StoredObjects `items` afterwards, is the one `l` describes. */
  ghost predicate Agrees<T>(r: Result<T>, l: Result<Lowered<T>>, items: seq<Stored>) {
    match l
    case Ok(x) => r == Ok(x.value) && items == x.stored
    case Throw(e) => r == Throw(e)
  }

  // ------------------------------------------------------------ the processor

  /** The StoredObjects list, shared by a processor and the processors it creates for nested operations. */
  class StoredObjects {
    var items: seq<Stored>

    constructor ()
      ensures items == []
    {
      items := [];
    }
  }

  class MappingOperationsProcessor {
    const operations: seq<MappingOperation>
    const storedObjects: StoredObjects
    /** Whether LocException is set, so that every operation's code is wrapped in an exception handler. */
    const locException: bool
    /** Reflection facts and the static converters manager. */
    const refl: Reflection

    /** The copy constructor with Operations replaced, as used for blocks and nested operations. */
    constructor (operations: seq<MappingOperation>, storedObjects: StoredObjects, locException: bool, refl: Reflection)
      ensures this.operations == operations && this.storedObjects == storedObjects
      ensures this.locException == locException && this.refl == refl
    {
      this.operations := operations;
      this.storedObjects := storedObjects;
      this.locException := locException;
      this.refl := refl;
    }

    /** AddObjectToStore: appends `obj` and returns its index, the previous count. */
    method AddObjectToStore(obj: Stored) returns (objectId: nat)
      modifies storedObjects
      ensures objectId == |old(storedObjects.items)|
      ensures storedObjects.items == old(storedObjects.items) + [obj]
    {
      objectId := |storedObjects.items|;
      storedObjects.items := storedObjects.items + [obj];
    }

    method GetNullValue(nullSubstitutor: Option<nat>) returns (value: Expr)
      modifies storedObjects
      ensures LowerNullValue(nullSubstitutor, old(storedObjects.items)) == Lowered(value, storedObjects.items)
    {
      if nullSubstitutor.Some? {
        var substId := AddObjectToStore(StoredDelegate(nullSubstitutor.value));
        return InvokeStoredDelegate(substId, [ReadState]);
      }
      return NullConstant;
    }

    /** GetMapperInt, then the stored mapper's call; nothing is stored when the mapper cannot be built. */
    method ConvertByMapper(mapping: MappingOperation) returns (r: Result<Expr>)
      requires mapping.ReadWriteSimple?
      modifies storedObjects
      ensures r.Throw? ==> unchanged(storedObjects)
      ensures Agrees(r, LowerByMapper(refl, mapping, old(storedObjects.items)), storedObjects.items)
    {
      var failure := refl.mapperFailure(mapping.source.memberType, mapping.destination.memberType);
      if failure.Some? {
        return Throw(failure.value);
      }
      var mapperId := AddObjectToStore(StoredMapper(mapping.source.memberType, mapping.destination.memberType));
      return Ok(CallMapper(mapperId, ReadMembers(From, mapping.source.membersChain),
                           ReadMembers(To, mapping.destination.membersChain)));
    }

    method ConvertMappingValue(rwMapOp: MappingOperation, operationId: nat, sourceValue: Expr) returns (r: Result<Expr>)
      requires rwMapOp.ReadWriteSimple?
      modifies storedObjects
      ensures old(storedObjects.items) <= storedObjects.items
      ensures Agrees(r, LowerConversion(refl, rwMapOp, operationId, sourceValue, old(storedObjects.items)), storedObjects.items)
    {
      if rwMapOp.converter.Some? {
        r := Ok(InvokeOperationDelegate(operationId, Converter, [sourceValue, ReadState]));
      } else if rwMapOp.shallowCopy && rwMapOp.destination.memberType == rwMapOp.source.memberType {
        r := Ok(sourceValue);
      } else {
        var mi := refl.staticConverter(rwMapOp.source.memberType, rwMapOp.destination.memberType);
        if mi.Some? {
          r := Ok(CallStaticConverter(mi.value, sourceValue));
        } else {
          r := ConvertByMapper(rwMapOp);
        }
      }
    }

    method ProcessReadWriteSimple(readWriteSimple: MappingOperation, operationId: nat) returns (r: Result<Node>)
      requires readWriteSimple.ReadWriteSimple?
      modifies storedObjects
      ensures old(storedObjects.items) <= storedObjects.items
      ensures Agrees(r, LowerSimple(refl, readWriteSimple, operationId, old(storedObjects.items)), storedObjects.items)
    {
      var sourceValue := ReadSrcMappingValue(readWriteSimple, operationId).value;
      var convertedValue: Expr;
      if SubstitutesNull(refl, readWriteSimple) {
        var nullValue := GetNullValue(readWriteSimple.nullSubstitutor);
        var present := ConvertMappingValue(readWriteSimple, operationId, sourceValue);
        if present.Throw? {
          return Throw(present.error);
        }
        convertedValue := IfAbsent(IsNullable(readWriteSimple.source.memberType), sourceValue, nullValue, present.value);
      } else {
        var converted := ConvertMappingValue(readWriteSimple, operationId, sourceValue);
        if converted.Throw? {
          return Throw(converted.error);
        }
        convertedValue := converted.value;
      }
      var result := WriteMappingValue(readWriteSimple, operationId, convertedValue);
      if readWriteSimple.sourceFilter.Some? {
        result := ProcessSourceFilter(readWriteSimple, operationId, result);
      }
      if readWriteSimple.destinationFilter.Some? {
        result := ProcessDestinationFilter(readWriteSimple, operationId, result);
      }
      return Ok(result);
    }

    method ProcessReadWriteComplex(op: MappingOperation, operationId: nat) returns (r: Result<Node>)
      requires op.ReadWriteComplex?
      modifies storedObjects
      decreases op, 2
      ensures old(storedObjects.items) <= storedObjects.items
      ensures Agrees(r, LowerComplex(refl, op, operationId, old(storedObjects.items), locException), storedObjects.items)
    {
      var result: Node;
      if op.converter.Some? {
        result := ProcessReadWriteComplexByConverter(op, operationId);
      } else {
        var copying := ProcessReadWriteComplexCopying(op);
        if copying.Throw? {
          return Throw(copying.error);
        }
        result := copying.value;
      }
      if op.sourceFilter.Some? {
        result := ProcessSourceFilter(op, operationId, result);
      }
      if op.destinationFilter.Some? {
        result := ProcessDestinationFilter(op, operationId, result);
      }
      return Ok(result);
    }

    method ProcessReadWriteComplexCopying(op: MappingOperation) returns (r: Result<Node>)
      requires op.ReadWriteComplex?
      modifies storedObjects
      decreases op, 1
      ensures old(storedObjects.items) <= storedObjects.items
      ensures Agrees(r, LowerCopying(refl, op, old(storedObjects.items), locException), storedObjects.items)
    {
      var sourceType := op.source.memberType;
      var destinationType := op.destination.memberType;
      var nullValue := GetNullValue(op.nullSubstitutor);
      var initDest := GetInitDestination(op);
      var nestedProcessor := new MappingOperationsProcessor(op.operations, storedObjects, locException, refl);
      var nested := nestedProcessor.ProcessOperations();
      if nested.Throw? {
        return Throw(nested.error);
      }
      var postProcessor := GetPostProcessor(op.valuesPostProcessor);
      return Ok(CopyComplex(
        op.source.membersChain, op.destination.membersChain,
        IsNullable(sourceType), IsNullable(sourceType) || !refl.isValueType(sourceType),
        IsNullable(destinationType), IsNullable(destinationType) || !refl.isValueType(destinationType),
        nullValue, initDest, nested.value.nodes, postProcessor));
    }

    /** The destination's initial value: the stored target constructor called, or `new AstNewObject(destinationType)`. */
    method GetInitDestination(op: MappingOperation) returns (initDest: Expr)
      requires op.ReadWriteComplex?
      modifies storedObjects
      ensures LowerInit(op, old(storedObjects.items)) == Lowered(initDest, storedObjects.items)
    {
      if op.targetConstructor.Some? {
        var custCtrIdx := AddObjectToStore(StoredDelegate(op.targetConstructor.value));
        initDest := InvokeStoredDelegate(custCtrIdx, []);
      } else {
        initDest := NewDefault(op.destination.memberType);
      }
    }

    /** The slot of the stored values post-processor, when there is one. */
    method GetPostProcessor(valuesPostProcessor: Option<nat>) returns (postProcessor: Option<nat>)
      modifies storedObjects
      ensures LowerPostProcessor(valuesPostProcessor, old(storedObjects.items)) == Lowered(postProcessor, storedObjects.items)
    {
      postProcessor := None;
      if valuesPostProcessor.Some? {
        var postProcessorId := AddObjectToStore(StoredDelegate(valuesPostProcessor.value));
        postProcessor := Some(postProcessorId);
      }
    }

    /**
      The body of ProcessOperations' loop for one operation: it takes the next
      StoredObjects index, then yields its node, wrapped when LocException is
      set, or no node for an operation of another kind.
     */
    method ProcessOperation(operation: MappingOperation) returns (r: Result<Option<Node>>)
      modifies storedObjects
      decreases operation, 3
      ensures old(storedObjects.items) <= storedObjects.items
      ensures Agrees(r, LowerOne(refl, operation, old(storedObjects.items), locException), storedObjects.items)
    {
      ghost var before := storedObjects.items;
      var operationId := AddObjectToStore(StoredOperation(operation));
      var completeOperation: Result<Option<Node>>;
      match operation {
        case OperationsBlock(ops) =>
          var blockProcessor := new MappingOperationsProcessor(ops, storedObjects, locException, refl);
          var block := blockProcessor.ProcessOperations();
          completeOperation := if block.Ok? then Ok(Some(block.value)) else Throw(block.error);
          assert Agrees(completeOperation, LowerBlock(refl, operation, before, locException), storedObjects.items);
        case ReadWriteComplex(_, _, _, _, _, _, _, _, _) =>
          var complex := ProcessReadWriteComplex(operation, operationId);
          completeOperation := if complex.Ok? then Ok(Some(complex.value)) else Throw(complex.error);
          assert Agrees(completeOperation, LowerComplexStep(refl, operation, before, locException), storedObjects.items);
        case DestSrcReadOperation(_, _, _) =>
          var read := ProcessDestSrcReadOperation(operation, operationId);
          completeOperation := if read.Ok? then Ok(Some(read.value)) else Throw(read.error);
        case SrcReadOperation(_, _) =>
          var read := ProcessSrcReadOperation(operation, operationId);
          completeOperation := if read.Ok? then Ok(Some(read.value)) else Throw(read.error);
        case DestWriteOperation(_, _) =>
          var write := ProcessDestWriteOperation(operation, operationId);
          completeOperation := if write.Ok? then Ok(Some(write.value)) else Throw(write.error);
        case ReadWriteSimple(_, _, _, _, _, _, _) =>
          var simple := ProcessReadWriteSimple(operation, operationId);
          completeOperation := if simple.Ok? then Ok(Some(simple.value)) else Throw(simple.error);
          assert Agrees(completeOperation, LowerSimpleStep(refl, operation, before), storedObjects.items);
        case OtherOperation =>
          completeOperation := Ok(None);
      }
      assert Agrees(completeOperation, LowerKind(refl, operation, before, locException), storedObjects.items);
      if completeOperation.Throw? || completeOperation.value.None? || !locException {
        return completeOperation;
      }
      return Ok(Some(CreateExceptionHandlingBlock(operationId, completeOperation.value.value)));
    }

    /**
      ProcessOperations: every operation takes the next StoredObjects index
      and contributes its node, in list order, to one complex node.
     */
    method ProcessOperations() returns (r: Result<Node>)
      modifies storedObjects
      decreases operations, 0
      ensures old(storedObjects.items) <= storedObjects.items
      ensures var l := LowerOps(refl, operations, old(storedObjects.items), locException);
        && (r.Ok? <==> l.Ok?)
        && (l.Ok? ==> r.value == Complex(l.value.value) && storedObjects.items == l.value.stored)
        && (l.Throw? ==> r.error == l.error)
    {
      var nodes: seq<Node> := [];
      var n := 0;
      assert operations[n..] == operations;
      assert forall l: Lowered<seq<Node>> :: nodes + l.value == l.value;
      while n < |operations|
        invariant 0 <= n <= |operations|
        invariant old(storedObjects.items) <= storedObjects.items
        invariant LowerOps(refl, operations, old(storedObjects.items), locException)
                  == Prepend(nodes, LowerOps(refl, operations[n..], storedObjects.items, locException))
      {
        ghost var before := storedObjects.items;
        var completeOperation := ProcessOperation(operations[n]);
        PrependStep(refl, operations, n, nodes, before, locException);
        if completeOperation.Throw? {
          return Throw(completeOperation.error);
        }
        nodes := nodes + NodesOf(completeOperation.value);
        n := n + 1;
      }
      return Ok(Complex(nodes));
    }
  }
}
