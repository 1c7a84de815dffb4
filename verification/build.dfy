/**
  Building a mapper: the operations are processed into code, then the IL of
  that code is emitted.  Emission fails only where a missing destination
  member would be created with `new AstNewObject(T, null)` for a type T it
  cannot create; such a mapper is never built, so its code never runs.
 */
module Building {
  import opened Values
  import opened Operations
  import opened Ast
  import opened Processor

  /**
    ProcessOperations, then the emission of the code it produced.  A failure
    while processing comes first.  The caller that emits the processed code
    into a method body is not part of this model.
   */
  function Build(refl: Reflection, ops: seq<MappingOperation>, stored: seq<Stored>, wrap: bool): (r: Result<Lowered<seq<Node>>>)
    ensures r.Ok? ==> r == LowerOps(refl, ops, stored, wrap)
  {
    var l :- LowerOps(refl, ops, stored, wrap);
    var _ :- EmitAll(refl, l.value);
    Ok(l)
  }

  /**
    The mapper is built exactly when every destination write has a getter
    and every type its code creates can be created; a processing failure is
    reported first, and otherwise the failure is the first creation that
    cannot be compiled, in code order.
   */
  lemma BuildSucceeds(refl: Reflection, ops: seq<MappingOperation>, stored: seq<Stored>, wrap: bool)
    ensures Build(refl, ops, stored, wrap).Ok? <==> BuildableAll(refl, ops)
    ensures !WellFormedAll(refl, ops) ==> Build(refl, ops, stored, wrap) == Throw(LowerOps(refl, ops, stored, wrap).error)
    ensures WellFormedAll(refl, ops) && Build(refl, ops, stored, wrap).Throw? ==>
              Build(refl, ops, stored, wrap).error == CreateEach(refl, CreationsAll(refl, ops)).error
  {
    if WellFormedAll(refl, ops) {
      EmitOps(refl, ops, stored, wrap);
    }
  }

  /**
    A complex copy into a reference type with neither a target constructor
    nor a constructor for no parameters yields no mapper at all, whatever
    its nested operations are.
   */
  lemma UncreatableDestinationHasNoMapper(refl: Reflection, op: MappingOperation, stored: seq<Stored>, wrap: bool)
    requires op.ReadWriteComplex? && op.converter.None? && op.targetConstructor.None?
    requires WellFormedAll(refl, op.operations)
    requires !IsNullable(op.destination.memberType) && !refl.isValueType(op.destination.memberType)
    requires refl.findConstructor(op.destination.memberType, []).None?
    ensures Build(refl, [op], stored, wrap) == Throw(ConstructorNotFound([], op.destination.memberType))
  {
    var t := op.destination.memberType;
    assert [op][1..] == [];
    assert WellFormed(refl, op);
    assert WellFormedAll(refl, [op]);
    assert CreationsAll(refl, [op]) == [t] + CreationsAll(refl, op.operations) + [];
    CreateEachAppend(refl, [t], CreationsAll(refl, op.operations) + []);
    NewDestinationFails(refl, t);
    assert [t][1..] == [];
    BuildSucceeds(refl, [op], stored, wrap);
  }

  // ------------------------------------------ what the emission of code does

  lemma {:induction false} EmitAllAppend(refl: Reflection, a: seq<Node>, b: seq<Node>)
    ensures EmitAll(refl, a + b) == if EmitAll(refl, a).Throw? then EmitAll(refl, a) else EmitAll(refl, b)
    decreases |a|
  {
    if a == [] {
      assert a + b == b;
    } else {
      assert (a + b)[0] == a[0];
      assert (a + b)[1..] == a[1..] + b;
      EmitAllAppend(refl, a[1..], b);
    }
  }

  lemma EmitSingle(refl: Reflection, n: Node)
    ensures EmitAll(refl, [n]) == Emit(refl, n)
  {
    assert [n][1..] == [];
    if Emit(refl, n).Ok? {
      assert Emit(refl, n).value == ();
    }
  }

  /** Member reads and LocState emit no creation. */
  lemma {:induction false} EmitReads(refl: Reflection, args: seq<Expr>)
    requires forall i :: 0 <= i < |args| ==> args[i].ReadMembers? || args[i].ReadState?
    ensures EmitExprs(refl, args) == Ok(())
    decreases |args|
  {
    if args != [] {
      EmitReads(refl, args[1..]);
    }
  }

  /** The converted value of a simple copy always emits. */
  lemma EmitConversion(refl: Reflection, op: MappingOperation, id: nat, stored: seq<Stored>)
    requires op.ReadWriteSimple? && MapperAvailable(refl, op)
    ensures EmitExpr(refl, LowerConversion(refl, op, id, ReadMembers(From, op.source.membersChain), stored).value.value) == Ok(())
  {
    var sourceValue := ReadMembers(From, op.source.membersChain);
    EmitReads(refl, [sourceValue, ReadState]);
  }

  /** Filters add tests of member reads, which always emit. */
  lemma EmitFiltered(refl: Reflection, op: MappingOperation, id: nat, n: Node)
    requires op.ReadWriteSimple? || op.ReadWriteComplex?
    ensures Emit(refl, Filtered(op, id, n)) == Emit(refl, n)
  {
  }

  /** The null value of a copy always emits. */
  lemma EmitNullValue(refl: Reflection, nullSubstitutor: Option<nat>, stored: seq<Stored>)
    ensures EmitExpr(refl, LowerNullValue(nullSubstitutor, stored).value) == Ok(())
  {
    EmitReads(refl, [ReadState]);
  }

  /**
    Creating a missing destination emits exactly when a target constructor
    is set or the member type can be created, and otherwise fails naming
    the type.
   */
  lemma EmitInit(refl: Reflection, op: MappingOperation, stored: seq<Stored>)
    requires op.ReadWriteComplex?
    ensures EmitExpr(refl, LowerInit(op, stored).value).Ok? <==> op.targetConstructor.Some? || CanCreate(refl, op.destination.memberType)
    ensures op.targetConstructor.None? && !CanCreate(refl, op.destination.memberType) ==>
              EmitExpr(refl, LowerInit(op, stored).value) == Throw(ConstructorNotFound([], op.destination.memberType))
  {
    CompilesNoParams(refl, op.destination.memberType);
  }

  /** The code of a simple copy always emits. */
  lemma EmitSimple(refl: Reflection, op: MappingOperation, id: nat, stored: seq<Stored>)
    requires op.ReadWriteSimple? && MapperAvailable(refl, op)
    ensures Emit(refl, LowerSimple(refl, op, id, stored).value.value) == Ok(())
  {
    var sourceValue := ReadMembers(From, op.source.membersChain);
    var converted := LowerConverted(refl, op, id, sourceValue, stored).value;
    assert EmitExpr(refl, converted.value) == Ok(()) by {
      if SubstitutesNull(refl, op) {
        var nullValue := LowerNullValue(op.nullSubstitutor, stored);
        EmitNullValue(refl, op.nullSubstitutor, stored);
        EmitConversion(refl, op, id, nullValue.stored);
      } else {
        EmitConversion(refl, op, id, stored);
      }
    }
    EmitFiltered(refl, op, id, WriteMappingValue(op, id, converted.value));
  }

  /** The copy node emits the creation of its own destination, then its nested operations' code. */
  lemma {:induction false} EmitCopying(refl: Reflection, op: MappingOperation, stored: seq<Stored>, wrap: bool)
    requires op.ReadWriteComplex? && LowerCopying(refl, op, stored, wrap).Ok?
    ensures Emit(refl, LowerCopying(refl, op, stored, wrap).value.value)
         == CreateEach(refl, OwnCreation(refl, op) + CreationsAll(refl, op.operations))
    decreases op, 1
  {
    var nullValue := LowerNullValue(op.nullSubstitutor, stored);
    var init := LowerInit(op, nullValue.stored);
    var nested := LowerOps(refl, op.operations, init.stored, wrap);
    EmitNullValue(refl, op.nullSubstitutor, stored);
    EmitInit(refl, op, nullValue.stored);
    EmitOps(refl, op.operations, init.stored, wrap);
    CreateEachAppend(refl, OwnCreation(refl, op), CreationsAll(refl, op.operations));
    var own := OwnCreation(refl, op);
    if own != [] {
      assert own[1..] == [];
      CompilesNoParams(refl, own[0]);
    }
  }

  lemma {:induction false} EmitComplex(refl: Reflection, op: MappingOperation, id: nat, stored: seq<Stored>, wrap: bool)
    requires op.ReadWriteComplex? && LowerComplex(refl, op, id, stored, wrap).Ok?
    ensures Emit(refl, LowerComplex(refl, op, id, stored, wrap).value.value) == CreateEach(refl, Creations(refl, op))
    decreases op, 2
  {
    if op.converter.Some? {
      EmitReads(refl, [ReadMembers(From, op.source.membersChain), ReadState]);
      EmitFiltered(refl, op, id, ProcessReadWriteComplexByConverter(op, id));
    } else {
      EmitCopying(refl, op, stored, wrap);
      EmitFiltered(refl, op, id, LowerCopying(refl, op, stored, wrap).value.value);
    }
  }

  lemma {:induction false} EmitKind(refl: Reflection, op: MappingOperation, stored: seq<Stored>, wrap: bool)
    requires LowerKind(refl, op, stored, wrap).Ok?
    ensures EmitAll(refl, NodesOf(LowerKind(refl, op, stored, wrap).value.value)) == CreateEach(refl, Creations(refl, op))
    decreases op, 3
  {
    var n := LowerKind(refl, op, stored, wrap).value.value;
    if n.Some? {
      EmitSingle(refl, n.value);
    }
    match op
    case OperationsBlock(ops) =>
      EmitOps(refl, ops, stored + [StoredOperation(op)], wrap);
    case ReadWriteComplex(_, _, _, _, _, _, _, _, _) =>
      EmitComplex(refl, op, |stored|, stored + [StoredOperation(op)], wrap);
    case ReadWriteSimple(_, _, _, _, _, _, _) =>
      EmitSimple(refl, op, |stored|, stored + [StoredOperation(op)]);
    case DestSrcReadOperation(_, _, _) =>
    case SrcReadOperation(_, _) =>
    case DestWriteOperation(_, _) =>
    case OtherOperation =>
  }

  lemma {:induction false} EmitOne(refl: Reflection, op: MappingOperation, stored: seq<Stored>, wrap: bool)
    requires LowerOne(refl, op, stored, wrap).Ok?
    ensures EmitAll(refl, NodesOf(LowerOne(refl, op, stored, wrap).value.value)) == CreateEach(refl, Creations(refl, op))
    decreases op, 4
  {
    EmitKind(refl, op, stored, wrap);
    var n := LowerKind(refl, op, stored, wrap).value.value;
    if n.Some? {
      EmitSingle(refl, n.value);
      EmitSingle(refl, LowerOne(refl, op, stored, wrap).value.value.value);
    }
  }

  /** The code of a list of operations emits the creations of its operations, in list order. */
  lemma {:induction false} EmitOps(refl: Reflection, ops: seq<MappingOperation>, stored: seq<Stored>, wrap: bool)
    requires LowerOps(refl, ops, stored, wrap).Ok?
    ensures EmitAll(refl, LowerOps(refl, ops, stored, wrap).value.value) == CreateEach(refl, CreationsAll(refl, ops))
    decreases ops, 0
  {
    if ops != [] {
      var first := LowerOne(refl, ops[0], stored, wrap).value;
      var rest := LowerOps(refl, ops[1..], first.stored, wrap).value;
      EmitOne(refl, ops[0], stored, wrap);
      EmitOps(refl, ops[1..], first.stored, wrap);
      EmitAllAppend(refl, NodesOf(first.value), rest.value);
      CreateEachAppend(refl, Creations(refl, ops[0]), CreationsAll(refl, ops[1..]));
    }
  }
}
