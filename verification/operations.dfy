/**
  Mapping operations: the configuration a mapper is generated from, the
  objects the generated mapper keeps in its StoredObjects array, and what
  the user delegates it calls do at run time.
 */
module Operations {
  import opened Values
  import NewObjects

  /** A source or destination member: the chain of members from the root, and the member's type. */
  datatype MemberDescriptor = MemberDescriptor(membersChain: Path, memberType: Type)

  /**
    The mapping operations.  A delegate is named by a number; an optional
    delegate is None when the property is null.
   */
  datatype MappingOperation =
    | OperationsBlock(operations: seq<MappingOperation>)
    | ReadWriteComplex(
        source: MemberDescriptor,
        destination: MemberDescriptor,
        operations: seq<MappingOperation>,
        converter: Option<nat>,
        nullSubstitutor: Option<nat>,
        targetConstructor: Option<nat>,
        valuesPostProcessor: Option<nat>,
        sourceFilter: Option<nat>,
        destinationFilter: Option<nat>)
    | DestSrcReadOperation(source: MemberDescriptor, destination: MemberDescriptor, valueProcessor: Option<nat>)
    | SrcReadOperation(source: MemberDescriptor, setter: Option<nat>)
    | DestWriteOperation(destination: MemberDescriptor, getter: Option<nat>)
    | ReadWriteSimple(
        source: MemberDescriptor,
        destination: MemberDescriptor,
        converter: Option<nat>,
        nullSubstitutor: Option<nat>,
        shallowCopy: bool,
        sourceFilter: Option<nat>,
        destinationFilter: Option<nat>)
    | OtherOperation  // any other IMappingOperation: stored, but produces no code

  /** The delegate properties generated code reads back from a stored operation. */
  datatype DelegateField = Converter | SourceFilter | DestinationFilter | Getter | Setter | ValueProcessor

  /** The delegate in property `field` of `op`, None when `op` has no such property or it is null. */
  function DelegateOf(op: MappingOperation, field: DelegateField): Option<nat> {
    match field
    case Converter => if op.ReadWriteComplex? || op.ReadWriteSimple? then op.converter else None
    case SourceFilter => if op.ReadWriteComplex? || op.ReadWriteSimple? then op.sourceFilter else None
    case DestinationFilter => if op.ReadWriteComplex? || op.ReadWriteSimple? then op.destinationFilter else None
    case Getter => if op.DestWriteOperation? then op.getter else None
    case Setter => if op.SrcReadOperation? then op.setter else None
    case ValueProcessor => if op.DestSrcReadOperation? then op.valueProcessor else None
  }

  /** An entry of StoredObjects. */
  datatype Stored =
    | StoredOperation(operation: MappingOperation)
    | StoredDelegate(delegate: nat)
    | StoredMapper(from: Type, to: Type)  // the mapper for a pair of member types

  /** Whether a simple copy substitutes a null source: a substitutor is set and the source type can be null. */
  predicate SubstitutesNull(refl: Reflection, op: MappingOperation)
    requires op.ReadWriteSimple?
  {
    op.nullSubstitutor.Some? && (IsNullable(op.source.memberType) || !refl.isValueType(op.source.memberType))
  }

  /** Whether a simple copy converts by a nested mapper: no converter, no shallow identity, no static converter. */
  predicate ConvertsByMapper(refl: Reflection, op: MappingOperation)
    requires op.ReadWriteSimple?
  {
    && op.converter.None?
    && !(op.shallowCopy && op.destination.memberType == op.source.memberType)
    && refl.staticConverter(op.source.memberType, op.destination.memberType).None?
  }

  /** A stored delegate, when the optional delegate is set. */
  function StoredDelegates(d: Option<nat>): (s: seq<Stored>)
    ensures |s| <= 1
  {
    if d.Some? then [StoredDelegate(d.value)] else []
  }

  /**
    What processing `op` appends to StoredObjects, in order: the operation
    itself, then the substitutor, target constructor, nested operations and
    post-processor of a complex copy without a converter, or the substitutor
    and nested mapper of a simple copy.
   */
  function StoredBy(refl: Reflection, op: MappingOperation): (s: seq<Stored>)
    decreases op, 1
    ensures |s| >= 1 && s[0] == StoredOperation(op)
  {
    [StoredOperation(op)] +
    match op
    case OperationsBlock(ops) => StoredByAll(refl, ops)
    case ReadWriteComplex(_, _, ops, converter, subst, ctor, post, _, _) =>
      if converter.Some? then []
      else StoredDelegates(subst) + StoredDelegates(ctor) + StoredByAll(refl, ops) + StoredDelegates(post)
    case ReadWriteSimple(source, destination, _, subst, _, _, _) =>
      (if SubstitutesNull(refl, op) then [StoredDelegate(subst.value)] else [])
      + (if ConvertsByMapper(refl, op) then [StoredMapper(source.memberType, destination.memberType)] else [])
    case _ => []
  }

  function StoredByAll(refl: Reflection, ops: seq<MappingOperation>): seq<Stored>
    decreases ops, 0
  {
    if ops == [] then [] else StoredBy(refl, ops[0]) + StoredByAll(refl, ops[1..])
  }

  /** A simple copy that converts by a nested mapper gets one: GetMapperInt does not throw for its member types. */
  predicate MapperAvailable(refl: Reflection, op: MappingOperation)
    requires op.ReadWriteSimple?
  {
    !ConvertsByMapper(refl, op) || refl.mapperFailure(op.source.memberType, op.destination.memberType).None?
  }

  /**
    Processing does not throw: however deeply nested, no destination write
    has a null getter, no source read a null setter, no value processor
    operation a null value processor, and every nested mapper a simple copy
    needs can be built.  The nested operations of a complex copy with a
    converter are never processed.
   */
  predicate WellFormed(refl: Reflection, op: MappingOperation)
    decreases op, 1
  {
    match op
    case OperationsBlock(ops) => WellFormedAll(refl, ops)
    case ReadWriteComplex(_, _, ops, converter, _, _, _, _, _) => converter.Some? || WellFormedAll(refl, ops)
    case DestWriteOperation(_, getter) => getter.Some?
    case SrcReadOperation(_, setter) => setter.Some?
    case DestSrcReadOperation(_, _, valueProcessor) => valueProcessor.Some?
    case ReadWriteSimple(_, _, _, _, _, _, _) => MapperAvailable(refl, op)
    case OtherOperation => true
  }

  predicate WellFormedAll(refl: Reflection, ops: seq<MappingOperation>)
    decreases ops, 0
  {
    ops == [] || (WellFormed(refl, ops[0]) && WellFormedAll(refl, ops[1..]))
  }

  // ---------------------------------------------------------------- run time

  /** ValueToWrite<T>, returned by a destination-write getter. */
  datatype ValueToWrite = ValueToWrite(action: int, value: Value)

  /** What user delegates, static converters, nested mappers and constructors do when called. */
  datatype Host = Host(
    invoke: (nat, seq<Value>) -> Result<Value>,      // a converter, substitutor, constructor, post-processor or value processor
    test: (nat, seq<Value>) -> Result<bool>,         // a source or destination filter
    get: (nat, Value, Value) -> Result<ValueToWrite>, // a destination-write getter, called with (from, state)
    setValue: (nat, Value, Value, Value) -> Result<Value>, // a ValueSetter called with (to, value, state): the updated `to`
    staticCall: (nat, Value) -> Result<Value>,       // a static converter method
    mapWith: (Type, Type, Value, Value, Value) -> Result<Value>,
      // Map(from, to, state) of the mapper for a pair of types: the mapped value
    construct: (Type, nat) -> Result<Value>,         // a constructor with no parameters
    defaultOf: Type -> Value)                        // the default value of a value type

  /** The locals generated code reads: LocFrom, LocTo and LocState. */
  datatype Env = Env(from: Value, to: Value, state: Value)

  /** The null test of a copy: `!HasValue` for a Nullable<T> member, `== null` otherwise. */
  predicate Absent(v: Value, nullable: bool) {
    if nullable then !v.Wrapped? else v == Null
  }

  /** Nullable<T>.Value. */
  function NullableValue(v: Value): (r: Result<Value>)
    ensures r.Ok? <==> v.Wrapped?
  {
    if v.Wrapped? then Ok(v.inner) else Throw(InvalidOperation)
  }

  /** A member type whose values can be absent: Nullable<T> or a reference type. */
  predicate CanBeAbsent(refl: Reflection, t: Type) {
    IsNullable(t) || !refl.isValueType(t)
  }

  /**
    Whether `new AstNewObject(t, null)` compiles: a Nullable<T>, a type with
    a constructor for no parameters, or a value type.
   */
  predicate CanCreate(refl: Reflection, t: Type) {
    IsNullable(t) || refl.findConstructor(t, []).Some? || refl.isValueType(t)
  }

  /** A parameterless new-object node compiles exactly for a type that can be created, and otherwise names it. */
  lemma CompilesNoParams(refl: Reflection, t: Type)
    ensures NewObjects.Compile(refl, NewObjects.NewObject(t, [])).Ok? <==> CanCreate(refl, t)
    ensures !CanCreate(refl, t) ==> NewObjects.Compile(refl, NewObjects.NewObject(t, [])) == Throw(ConstructorNotFound([], t))
  {
    assert NewObjects.ParamTypes([]) == [];
    if !IsNullable(t) {
      NewObjects.SelectsConstructor(refl, t, [], []);
    }
  }

  /** A reference type without a parameterless constructor cannot be compiled as a new object. */
  lemma NewDestinationFails(refl: Reflection, t: Type)
    requires !IsNullable(t) && refl.findConstructor(t, []).None? && !refl.isValueType(t)
    ensures NewObjects.Compile(refl, NewObjects.NewObject(t, [])) == Throw(ConstructorNotFound([], t))
  {
    CompilesNoParams(refl, t);
  }

  /**
    Compiling `new AstNewObject(t, null)` for each type in turn, as the code
    that creates them is emitted: the first failure, if any.
   */
  function CreateEach(refl: Reflection, ts: seq<Type>): (r: Result<()>)
    ensures r.Ok? <==> forall t :: t in ts ==> CanCreate(refl, t)
    ensures r.Throw? ==> exists k :: 0 <= k < |ts| && !CanCreate(refl, ts[k]) && r.error == ConstructorNotFound([], ts[k])
                                     && forall j :: 0 <= j < k ==> CanCreate(refl, ts[j])
  {
    if ts == [] then Ok(())
    else
      CompilesNoParams(refl, ts[0]);
      var _ :- NewObjects.Compile(refl, NewObjects.NewObject(ts[0], []));
      var rest := CreateEach(refl, ts[1..]);
      assert forall t :: t in ts <==> t == ts[0] || t in ts[1..];
      if rest.Throw? then
        assert exists k :: 0 <= k < |ts| && !CanCreate(refl, ts[k]) && rest.error == ConstructorNotFound([], ts[k])
                           && forall j :: 0 <= j < k ==> CanCreate(refl, ts[j]) by {
          var k :| 0 <= k < |ts[1..]| && !CanCreate(refl, ts[1..][k]) && rest.error == ConstructorNotFound([], ts[1..][k])
                   && forall j :: 0 <= j < k ==> CanCreate(refl, ts[1..][j]);
          assert ts[k + 1] == ts[1..][k];
          forall j | 0 <= j < k + 1 ensures CanCreate(refl, ts[j]) {
            if j > 0 { assert ts[j] == ts[1..][j - 1]; }
          }
        }
        rest
      else rest
  }

  /** Creations compile in sequence: the second list is reached only when the first compiles. */
  lemma {:induction false} CreateEachAppend(refl: Reflection, a: seq<Type>, b: seq<Type>)
    ensures CreateEach(refl, a + b) == if CreateEach(refl, a).Throw? then CreateEach(refl, a) else CreateEach(refl, b)
    decreases |a|
  {
    if a == [] {
      assert a + b == b;
    } else {
      assert (a + b)[0] == a[0];
      assert (a + b)[1..] == a[1..] + b;
      CreateEachAppend(refl, a[1..], b);
    }
  }

  /**
    The types the code generated for `op` creates with `new AstNewObject(t,
    null)`, in the order that code is emitted: the destination member of a
    complex copy without a converter or a target constructor, when that
    member can be absent, before those of its nested operations.
   */
  function Creations(refl: Reflection, op: MappingOperation): seq<Type>
    decreases op, 1
  {
    match op
    case OperationsBlock(ops) => CreationsAll(refl, ops)
    case ReadWriteComplex(_, _, ops, converter, _, _, _, _, _) =>
      if converter.Some? then [] else OwnCreation(refl, op) + CreationsAll(refl, ops)
    case _ => []
  }

  /** The destination member a complex copy creates itself, when it has no target constructor and the member can be absent. */
  function OwnCreation(refl: Reflection, op: MappingOperation): (ts: seq<Type>)
    requires op.ReadWriteComplex?
    ensures |ts| <= 1
  {
    if op.targetConstructor.None? && CanBeAbsent(refl, op.destination.memberType) then [op.destination.memberType] else []
  }

  function CreationsAll(refl: Reflection, ops: seq<MappingOperation>): seq<Type>
    decreases ops, 0
  {
    if ops == [] then [] else Creations(refl, ops[0]) + CreationsAll(refl, ops[1..])
  }

  /** A mapper can be built for `ops`: processing succeeds and every type its code creates can be created. */
  predicate BuildableAll(refl: Reflection, ops: seq<MappingOperation>) {
    WellFormedAll(refl, ops) && forall t :: t in CreationsAll(refl, ops) ==> CanCreate(refl, t)
  }

  predicate Buildable(refl: Reflection, op: MappingOperation) {
    WellFormed(refl, op) && forall t :: t in Creations(refl, op) ==> CanCreate(refl, t)
  }

  /** A single operation can be built exactly when the list holding only it can. */
  lemma BuildableOne(refl: Reflection, op: MappingOperation)
    ensures BuildableAll(refl, [op]) <==> Buildable(refl, op)
  {
    assert [op][1..] == [];
    assert CreationsAll(refl, [op]) == Creations(refl, op) + [];
    assert CreationsAll(refl, [op]) == Creations(refl, op);
    assert WellFormedAll(refl, [op]) <==> WellFormed(refl, op);
  }

  /**
    The value the code of `new AstNewObject(t, null)` produces when it runs:
    a Nullable<T> holding T's default, or the object the constructor for no
    parameters makes, or a value type's default.  Code creating a type that
    CanCreate rejects is never emitted, so it never runs.
   */
  function NewDestination(refl: Reflection, host: Host, t: Type): Result<Value> {
    if IsNullable(t) then Ok(Wrapped(host.defaultOf(t.underlying)))
    else match refl.findConstructor(t, [])
      case Some(c) => host.construct(t, c)
      case None => Ok(host.defaultOf(t))
  }

  /** A Nullable<T> destination is created holding T's default value. */
  lemma NewNullableDestination(refl: Reflection, host: Host, t: Type)
    requires IsNullable(t)
    ensures NewDestination(refl, host, t) == Ok(Wrapped(host.defaultOf(t.underlying)))
  {
  }
}
