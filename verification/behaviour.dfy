/**
  What the generated mapper code does, operation kind by operation kind:
  conversion precedence, null substitution, filters, complex copies,
  destination writes through a getter, value processors, setters, the
  order operations run in and the wrapping of their exceptions.  Each
  property is stated on the code ProcessOperations produces.
 */
module MapperBehaviour {
  import opened Values
  import opened Operations
  import opened Ast
  import opened Processor
  import opened Building
  import opened Meaning

  /**
    Conversion precedence in a simple copy: the user converter, then the
    source value itself for a shallow copy between equal member types, then
    a static converter, then the nested mapper for the member types, called
    with the source member and the current destination member.  That mapper
    is built while this one is: when its build throws, no mapper is built
    and the exception is reported.
   */
  lemma ConversionPrecedence(refl: Reflection, host: Host, op: MappingOperation, env: Env)
    requires op.ReadWriteSimple? && op.sourceFilter.None? && op.destinationFilter.None? && !SubstitutesNull(refl, op)
    ensures Build(refl, [op], [], false).Ok? <==> MapperAvailable(refl, op)
    ensures !MapperAvailable(refl, op) ==>
      Build(refl, [op], [], false) == Throw(refl.mapperFailure(op.source.memberType, op.destination.memberType).value)
    ensures op.converter.Some? ==>
      Generated(refl, host, [op], env, false)
      == (var s :- ReadChain(env.from, op.source.membersChain);
          var v :- host.invoke(op.converter.value, [s, env.state]);
          WriteChain(env.to, op.destination.membersChain, v))
    ensures op.converter.None? && op.shallowCopy && op.destination.memberType == op.source.memberType ==>
      Generated(refl, host, [op], env, false)
      == (var s :- ReadChain(env.from, op.source.membersChain);
          WriteChain(env.to, op.destination.membersChain, s))
    ensures op.converter.None? && !(op.shallowCopy && op.destination.memberType == op.source.memberType)
            && refl.staticConverter(op.source.memberType, op.destination.memberType).Some? ==>
      Generated(refl, host, [op], env, false)
      == (var s :- ReadChain(env.from, op.source.membersChain);
          var v :- host.staticCall(refl.staticConverter(op.source.memberType, op.destination.memberType).value, s);
          WriteChain(env.to, op.destination.membersChain, v))
    ensures ConvertsByMapper(refl, op) && refl.mapperFailure(op.source.memberType, op.destination.memberType).None? ==>
      Generated(refl, host, [op], env, false)
      == (var s :- ReadChain(env.from, op.source.membersChain);
          var d :- ReadChain(env.to, op.destination.membersChain);
          var v :- host.mapWith(op.source.memberType, op.destination.memberType, s, d, env.state);
          WriteChain(env.to, op.destination.membersChain, v))
  {
    if MapperAvailable(refl, op) {
      GeneratedOne(refl, host, op, env, false);
    } else {
      SingleFailure(refl, op, false);
    }
  }

  /** A single operation that cannot be processed yields no mapper, with the exception its processing throws. */
  lemma SingleFailure(refl: Reflection, op: MappingOperation, wrap: bool)
    requires !WellFormed(refl, op)
    ensures Build(refl, [op], [], wrap) == Throw(LowerKind(refl, op, [], wrap).error)
  {
    assert [op][1..] == [];
    BuildSucceeds(refl, [op], [], wrap);
  }

  /**
    Null substitution in a simple copy: with a substitutor and a source type
    that can be null, an absent source writes substitutor(state); a present
    source is converted as if there were no substitutor.  A substitutor on a
    source of a non-nullable value type is never used.  The nested mapper
    is built whether or not the source turns out absent, so the copy and its
    substitutor-free form are built under the same condition.
   */
  lemma NullSubstitution(refl: Reflection, host: Host, op: MappingOperation, env: Env)
    requires op.ReadWriteSimple? && op.sourceFilter.None? && op.destinationFilter.None?
    ensures Build(refl, [op], [], false).Ok? <==> MapperAvailable(refl, op)
    ensures Build(refl, [WithoutSubstitutor(op)], [], false).Ok? <==> MapperAvailable(refl, op)
    ensures var s := ReadChain(env.from, op.source.membersChain);
      MapperAvailable(refl, op) && SubstitutesNull(refl, op) && s.Ok? && Absent(s.value, IsNullable(op.source.memberType)) ==>
      Generated(refl, host, [op], env, false)
      == (var v :- host.invoke(op.nullSubstitutor.value, [env.state]);
          WriteChain(env.to, op.destination.membersChain, v))
    ensures var s := ReadChain(env.from, op.source.membersChain);
      MapperAvailable(refl, op) && s.Ok? && !Absent(s.value, IsNullable(op.source.memberType)) ==>
      Generated(refl, host, [op], env, false) == Generated(refl, host, [WithoutSubstitutor(op)], env, false)
    ensures MapperAvailable(refl, op) && !IsNullable(op.source.memberType) && refl.isValueType(op.source.memberType) ==>
      Generated(refl, host, [op], env, false) == Generated(refl, host, [WithoutSubstitutor(op)], env, false)
  {
    assert MapperAvailable(refl, WithoutSubstitutor(op)) == MapperAvailable(refl, op);
    if MapperAvailable(refl, op) {
      GeneratedOne(refl, host, op, env, false);
      GeneratedOne(refl, host, WithoutSubstitutor(op), env, false);
    } else {
      SingleFailure(refl, op, false);
      SingleFailure(refl, WithoutSubstitutor(op), false);
    }
  }

  /** A simple copy without its null substitutor. */
  function WithoutSubstitutor(op: MappingOperation): (r: MappingOperation)
    requires op.ReadWriteSimple?
    ensures r.ReadWriteSimple? && r.nullSubstitutor.None?
  {
    ReadWriteSimple(op.source, op.destination, op.converter, None, op.shallowCopy, op.sourceFilter, op.destinationFilter)
  }

  /** A copy without its source and destination filters. */
  function Unfiltered(op: MappingOperation): (r: MappingOperation)
    requires op.ReadWriteSimple? || op.ReadWriteComplex?
    ensures r.ReadWriteSimple? == op.ReadWriteSimple? && r.ReadWriteComplex? == op.ReadWriteComplex?
    ensures r.sourceFilter.None? && r.destinationFilter.None?
  {
    match op
    case ReadWriteSimple(source, destination, converter, subst, shallow, _, _) =>
      ReadWriteSimple(source, destination, converter, subst, shallow, None, None)
    case ReadWriteComplex(source, destination, ops, converter, subst, ctor, post, _, _) =>
      ReadWriteComplex(source, destination, ops, converter, subst, ctor, post, None, None)
  }

  /** A filter lets its operation run: there is none, or it accepts (value, state). */
  predicate Accepts(host: Host, filter: Option<nat>, value: Result<Value>, env: Env) {
    filter.None? || (value.Ok? && host.test(filter.value, [value.value, env.state]) == Ok(true))
  }

  /** A filter turns its operation away: it rejects (value, state). */
  predicate Rejects(host: Host, filter: Option<nat>, value: Result<Value>, env: Env) {
    filter.Some? && value.Ok? && host.test(filter.value, [value.value, env.state]) == Ok(false)
  }

  /**
    Filters: the destination filter, given the current destination member,
    is tested first; the source filter, given the source member, second.  A
    rejection leaves the destination as it was.
   */
  lemma FiltersGuardTheWrite(refl: Reflection, host: Host, op: MappingOperation, env: Env)
    requires (op.ReadWriteSimple? || op.ReadWriteComplex?) && Buildable(refl, op)
    ensures Build(refl, [op], [], false).Ok?
    ensures Rejects(host, op.destinationFilter, ReadChain(env.to, op.destination.membersChain), env) ==>
      Generated(refl, host, [op], env, false) == Ok(env.to)
    ensures Accepts(host, op.destinationFilter, ReadChain(env.to, op.destination.membersChain), env)
            && Rejects(host, op.sourceFilter, ReadChain(env.from, op.source.membersChain), env) ==>
      Generated(refl, host, [op], env, false) == Ok(env.to)
  {
    GeneratedOne(refl, host, op, env, false);
  }

  /** When both filters accept, the operation does what it does without filters. */
  lemma AcceptingFiltersActAsNone(refl: Reflection, host: Host, op: MappingOperation, env: Env)
    requires (op.ReadWriteSimple? || op.ReadWriteComplex?) && Buildable(refl, op)
    requires Accepts(host, op.destinationFilter, ReadChain(env.to, op.destination.membersChain), env)
    requires Accepts(host, op.sourceFilter, ReadChain(env.from, op.source.membersChain), env)
    ensures Build(refl, [op], [], false).Ok? && Build(refl, [Unfiltered(op)], [], false).Ok?
    ensures Generated(refl, host, [op], env, false) == Generated(refl, host, [Unfiltered(op)], env, false)
  {
    assert WellFormed(refl, Unfiltered(op)) && Creations(refl, Unfiltered(op)) == Creations(refl, op);
    GeneratedOne(refl, host, op, env, false);
    GeneratedOne(refl, host, Unfiltered(op), env, false);
    if op.ReadWriteSimple? {
      SimpleFiltersWrap(refl, host, op, env, 0, false);
    } else {
      ComplexFiltersWrap(refl, host, op, env, 0, false);
    }
  }

  /** A simple copy runs as its unfiltered self inside its filters. */
  lemma SimpleFiltersWrap(refl: Reflection, host: Host, op: MappingOperation, env: Env, slot: nat, wrap: bool)
    requires op.ReadWriteSimple?
    ensures RunOp(refl, host, op, env, slot, wrap)
         == WithFilters(host, op, env, RunOp(refl, host, Unfiltered(op), env, slot, wrap))
  {
    assert SimpleValue(refl, host, op, env) == SimpleValue(refl, host, Unfiltered(op), env);
  }

  /** A complex copy runs as its unfiltered self inside its filters. */
  lemma ComplexFiltersWrap(refl: Reflection, host: Host, op: MappingOperation, env: Env, slot: nat, wrap: bool)
    requires op.ReadWriteComplex?
    ensures RunOp(refl, host, op, env, slot, wrap)
         == WithFilters(host, op, env, RunOp(refl, host, Unfiltered(op), env, slot, wrap))
  {
    if op.converter.None? {
      assert Copy(refl, host, op, env, slot + 1, wrap) == Copy(refl, host, Unfiltered(op), env, slot + 1, wrap);
    }
  }

  /**
    A complex copy with a converter sets the destination member to
    Converter(source member, state); its nested operations are neither
    processed nor run.
   */
  lemma ComplexByConverter(refl: Reflection, host: Host, op: MappingOperation, env: Env)
    requires op.ReadWriteComplex? && op.converter.Some? && op.sourceFilter.None? && op.destinationFilter.None?
    ensures Build(refl, [op], [], false).Ok?
    ensures Generated(refl, host, [op], env, false)
      == (var s :- ReadChain(env.from, op.source.membersChain);
          var v :- host.invoke(op.converter.value, [s, env.state]);
          WriteChain(env.to, op.destination.membersChain, v))
  {
    GeneratedOne(refl, host, op, env, false);
  }

  /**
    A complex copy whose source member is absent (null, or a Nullable
    without a value) writes substitutor(state), or null without a
    substitutor, and constructs nothing.
   */
  lemma ComplexAbsentSource(refl: Reflection, host: Host, op: MappingOperation, env: Env)
    requires op.ReadWriteComplex? && op.converter.None? && op.sourceFilter.None? && op.destinationFilter.None?
    requires Buildable(refl, op)
    requires CanBeAbsent(refl, op.source.memberType)
    requires var s := ReadChain(env.from, op.source.membersChain);
      s.Ok? && Absent(s.value, IsNullable(op.source.memberType))
    requires ReadChain(env.to, op.destination.membersChain).Ok?
    ensures Build(refl, [op], [], false).Ok?
    ensures Generated(refl, host, [op], env, false)
      == if op.nullSubstitutor.Some? then
           var v :- host.invoke(op.nullSubstitutor.value, [env.state]);
           WriteChain(env.to, op.destination.membersChain, v)
         else WriteChain(env.to, op.destination.membersChain, Null)
  {
    GeneratedOne(refl, host, op, env, false);
    assert Generated(refl, host, [op], env, false) == Copy(refl, host, op, env, 1, false);
  }

  /**
    A complex copy of a present source into a reference-type member: an
    existing destination member is reused, a null one is created by the
    target constructor or by the type's constructor for no parameters (a
    type with neither yields no mapper: UncreatableDestinationHasNoMapper);
    the nested operations
    run on (source member, destination member); the post-processor, if any,
    is applied to (result, state); and the result is written back.
   */
  lemma ComplexCopiesIntoDestination(refl: Reflection, host: Host, op: MappingOperation, env: Env)
    requires op.ReadWriteComplex? && op.converter.None? && op.sourceFilter.None? && op.destinationFilter.None?
    requires Buildable(refl, op)
    requires !IsNullable(op.source.memberType) && !IsNullable(op.destination.memberType)
    requires !refl.isValueType(op.destination.memberType)
    requires var s := ReadChain(env.from, op.source.membersChain); s.Ok? && s.value != Null
    requires ReadChain(env.to, op.destination.membersChain).Ok?
    ensures Build(refl, [op], [], false).Ok?
    ensures op.targetConstructor.Some? || refl.findConstructor(op.destination.memberType, []).Some?
    ensures var s := ReadChain(env.from, op.source.membersChain).value;
      var d := ReadChain(env.to, op.destination.membersChain).value;
      var nestedSlot := 1 + |StoredDelegates(op.nullSubstitutor)| + |StoredDelegates(op.targetConstructor)|;
      Generated(refl, host, [op], env, false)
      == (var dst :- if d != Null then Ok(d)
                     else if op.targetConstructor.Some? then host.invoke(op.targetConstructor.value, [])
                     else host.construct(op.destination.memberType, refl.findConstructor(op.destination.memberType, []).value);
          var copied :- RunAll(refl, host, op.operations, Env(s, dst, env.state), nestedSlot, false);
          var result :- if op.valuesPostProcessor.Some? then host.invoke(op.valuesPostProcessor.value, [copied, env.state])
                        else Ok(copied);
          WriteChain(env.to, op.destination.membersChain, result))
  {
    if op.targetConstructor.None? {
      assert op.destination.memberType in Creations(refl, op);
    }
    GeneratedOne(refl, host, op, env, false);
    assert Generated(refl, host, [op], env, false) == Copy(refl, host, op, env, 1, false);
    CopyIntoReferenceMember(refl, host, op, env);
  }

  /** The reference semantics of such a copy, once a way to create the destination is known. */
  lemma CopyIntoReferenceMember(refl: Reflection, host: Host, op: MappingOperation, env: Env)
    requires op.ReadWriteComplex? && op.converter.None? && op.sourceFilter.None? && op.destinationFilter.None?
    requires op.targetConstructor.Some? || refl.findConstructor(op.destination.memberType, []).Some?
    requires !IsNullable(op.source.memberType) && !IsNullable(op.destination.memberType)
    requires !refl.isValueType(op.destination.memberType)
    requires var s := ReadChain(env.from, op.source.membersChain); s.Ok? && s.value != Null
    requires ReadChain(env.to, op.destination.membersChain).Ok?
    ensures var s := ReadChain(env.from, op.source.membersChain).value;
      var d := ReadChain(env.to, op.destination.membersChain).value;
      var nestedSlot := 1 + |StoredDelegates(op.nullSubstitutor)| + |StoredDelegates(op.targetConstructor)|;
      Copy(refl, host, op, env, 1, false)
      == (var dst :- if d != Null then Ok(d)
                     else if op.targetConstructor.Some? then host.invoke(op.targetConstructor.value, [])
                     else host.construct(op.destination.memberType, refl.findConstructor(op.destination.memberType, []).value);
          var copied :- RunAll(refl, host, op.operations, Env(s, dst, env.state), nestedSlot, false);
          var result :- if op.valuesPostProcessor.Some? then host.invoke(op.valuesPostProcessor.value, [copied, env.state])
                        else Ok(copied);
          WriteChain(env.to, op.destination.membersChain, result))
  {
    var s := ReadChain(env.from, op.source.membersChain).value;
    var d := ReadChain(env.to, op.destination.membersChain).value;
    assert CanBeAbsent(refl, op.destination.memberType) && (Absent(d, false) <==> d == Null);
    assert Unwrap(s, false) == Ok(s);
  }

  /**
    A complex copy between Nullable members that both have a value: the
    nested operations run on the underlying values and their result is
    wrapped again before it is written back.
   */
  lemma NullableMembersAreUnwrapped(refl: Reflection, host: Host, op: MappingOperation, env: Env, a: Value, b: Value)
    requires op.ReadWriteComplex? && op.converter.None? && op.sourceFilter.None? && op.destinationFilter.None?
    requires op.valuesPostProcessor.None? && Buildable(refl, op)
    requires IsNullable(op.source.memberType) && IsNullable(op.destination.memberType)
    requires ReadChain(env.from, op.source.membersChain) == Ok(Wrapped(a))
    requires ReadChain(env.to, op.destination.membersChain) == Ok(Wrapped(b))
    ensures Build(refl, [op], [], false).Ok?
    ensures var nestedSlot := 1 + |StoredDelegates(op.nullSubstitutor)| + |StoredDelegates(op.targetConstructor)|;
      Generated(refl, host, [op], env, false)
      == (var copied :- RunAll(refl, host, op.operations, Env(a, b, env.state), nestedSlot, false);
          WriteChain(env.to, op.destination.membersChain, Wrapped(copied)))
  {
    GeneratedOne(refl, host, op, env, false);
    assert Generated(refl, host, [op], env, false) == Copy(refl, host, op, env, 1, false);
  }

  /** A destination write calls its getter with (from, state) and writes the Value only when Action is 0. */
  lemma DestWriteHonoursAction(refl: Reflection, host: Host, op: MappingOperation, env: Env)
    requires op.DestWriteOperation? && op.getter.Some?
    ensures Build(refl, [op], [], false).Ok?
    ensures var w := host.get(op.getter.value, env.from, env.state);
      Generated(refl, host, [op], env, false)
      == if w.Throw? then Throw(w.error)
         else if w.value.action == 0 then WriteChain(env.to, op.destination.membersChain, w.value.value)
         else Ok(env.to)
  {
    GeneratedOne(refl, host, op, env, false);
  }

  /** A destination write without a getter cannot be processed: the whole list of operations fails. */
  lemma MissingGetterFailsProcessing(refl: Reflection, ops: seq<MappingOperation>, stored: seq<Stored>, wrap: bool, i: nat)
    requires i < |ops| && ops[i].DestWriteOperation? && ops[i].getter.None?
    ensures LowerOps(refl, ops, stored, wrap).Throw? && Build(refl, ops, stored, wrap).Throw?
  {
    WellFormedAllAt(refl, ops, i);
  }

  /**
    Any operation that cannot be processed (a null getter, setter or value
    processor, or a nested mapper that cannot be built) makes the whole list
    fail, wherever it stands.
   */
  lemma IllFormedFailsProcessing(refl: Reflection, ops: seq<MappingOperation>, stored: seq<Stored>, wrap: bool, i: nat)
    requires i < |ops| && !WellFormed(refl, ops[i])
    ensures LowerOps(refl, ops, stored, wrap).Throw? && Build(refl, ops, stored, wrap).Throw?
  {
    WellFormedAllAt(refl, ops, i);
  }

  lemma {:induction false} WellFormedAllAt(refl: Reflection, ops: seq<MappingOperation>, i: nat)
    requires i < |ops|
    ensures WellFormedAll(refl, ops) ==> WellFormed(refl, ops[i])
  {
    if i > 0 {
      WellFormedAllAt(refl, ops[1..], i - 1);
    }
  }

  /**
    A value-processing operation reads the source member and the member
    named by its destination chain, both from the source object, and gives
    them with the state to its value processor; the destination is
    unchanged.  Without a value processor no mapper is built.
   */
  lemma DestSrcReadReadsBothFromSource(refl: Reflection, host: Host, op: MappingOperation, env: Env)
    requires op.DestSrcReadOperation?
    ensures Build(refl, [op], [], false).Ok? <==> op.valueProcessor.Some?
    ensures op.valueProcessor.None? ==> Build(refl, [op], [], false) == Throw(NullReference)
    ensures op.valueProcessor.Some? ==>
      Generated(refl, host, [op], env, false)
      == (var s :- ReadChain(env.from, op.source.membersChain);
          var d :- ReadChain(env.from, op.destination.membersChain);
          var _ :- host.invoke(op.valueProcessor.value, [s, d, env.state]);
          Ok(env.to))
  {
    if op.valueProcessor.Some? {
      GeneratedOne(refl, host, op, env, false);
    } else {
      SingleFailure(refl, op, false);
    }
  }

  /**
    A source-read operation hands the source member to its setter with the
    destination and the state.  Without a setter no mapper is built.
   */
  lemma SrcReadCallsSetter(refl: Reflection, host: Host, op: MappingOperation, env: Env)
    requires op.SrcReadOperation?
    ensures Build(refl, [op], [], false).Ok? <==> op.setter.Some?
    ensures op.setter.None? ==> Build(refl, [op], [], false) == Throw(NullReference)
    ensures op.setter.Some? ==>
      Generated(refl, host, [op], env, false)
      == (var s :- ReadChain(env.from, op.source.membersChain);
          host.setValue(op.setter.value, env.to, s, env.state))
  {
    if op.setter.Some? {
      GeneratedOne(refl, host, op, env, false);
    } else {
      SingleFailure(refl, op, false);
    }
  }

  /** An operation of any other kind produces no code: the destination is unchanged. */
  lemma OtherOperationDoesNothing(refl: Reflection, host: Host, env: Env, wrap: bool)
    ensures Build(refl, [OtherOperation], [], wrap).Ok?
    ensures Generated(refl, host, [OtherOperation], env, wrap) == Ok(env.to)
  {
    GeneratedOne(refl, host, OtherOperation, env, wrap);
  }

  /** What a list of operations stores is what its parts store, in order. */
  lemma {:induction false} StoredByAllAppend(refl: Reflection, ops1: seq<MappingOperation>, ops2: seq<MappingOperation>)
    ensures StoredByAll(refl, ops1 + ops2) == StoredByAll(refl, ops1) + StoredByAll(refl, ops2)
  {
    if ops1 == [] {
      assert ops1 + ops2 == ops2;
    } else {
      assert (ops1 + ops2)[0] == ops1[0];
      assert (ops1 + ops2)[1..] == ops1[1..] + ops2;
      StoredByAllAppend(refl, ops1[1..], ops2);
    }
  }

  /**
    Operations run in list order: running ops1 + ops2 runs ops1, then ops2
    on the destination ops1 left, with ops2's StoredObjects indices starting
    after everything ops1 stored.
   */
  lemma {:induction false} OperationsRunInOrder(refl: Reflection, host: Host, ops1: seq<MappingOperation>,
                                                ops2: seq<MappingOperation>, env: Env, slot: nat, wrap: bool)
    ensures RunAll(refl, host, ops1 + ops2, env, slot, wrap)
         == (var to :- RunAll(refl, host, ops1, env, slot, wrap);
             RunAll(refl, host, ops2, env.(to := to), slot + |StoredByAll(refl, ops1)|, wrap))
  {
    if ops1 == [] {
      assert ops1 + ops2 == ops2;
    } else {
      var k := |StoredBy(refl, ops1[0])|;
      assert |StoredByAll(refl, ops1)| == k + |StoredByAll(refl, ops1[1..])|;
      assert (ops1 + ops2)[0] == ops1[0];
      assert (ops1 + ops2)[1..] == ops1[1..] + ops2;
      RunAllStep(refl, host, ops1 + ops2, env, slot, wrap, slot + k);
      RunAllStep(refl, host, ops1, env, slot, wrap, slot + k);
      var first := Run(refl, host, ops1[0], env, slot, wrap);
      if first.Ok? {
        OperationsRunInOrder(refl, host, ops1[1..], ops2, env.(to := first.value), slot + k, wrap);
      }
    }
  }

  /**
    With exception wrapping, a failing list of operations throws an
    EmitMapperException with the fixed message, whose operation index is
    that of a stored operation of the list.
   */
  lemma {:induction false} FailuresNameTheirOperation(refl: Reflection, host: Host, ops: seq<MappingOperation>,
                                                      stored: seq<Stored>, env: Env)
    requires RunAll(refl, host, ops, env, |stored|, true).Throw?
    ensures var e := RunAll(refl, host, ops, env, |stored|, true).error;
      && e.EmitMapperException? && e.message == ErrorInMappingOperation
      && |stored| <= e.operation < |stored| + |StoredByAll(refl, ops)|
      && (stored + StoredByAll(refl, ops))[e.operation].StoredOperation?
  {
    var first := StoredBy(refl, ops[0]);
    var rest := StoredByAll(refl, ops[1..]);
    var next := |stored| + |first|;
    assert StoredByAll(refl, ops) == first + rest;
    RunAllStep(refl, host, ops, env, |stored|, true, next);
    var r := Run(refl, host, ops[0], env, |stored|, true);
    if r.Ok? {
      assert |stored + first| == next;
      FailuresNameTheirOperation(refl, host, ops[1..], stored + first, env.(to := r.value));
      var e := RunAll(refl, host, ops[1..], env.(to := r.value), next, true).error;
      LaterIndex(stored, first, rest, StoredByAll(refl, ops), e.operation);
    } else {
      FirstFailureNamed(refl, host, ops[0], env, |stored|);
      assert (stored + StoredByAll(refl, ops))[|stored|] == first[0];
    }
  }

  /** An index into the part stored after `first` is an index into the part stored by the whole list. */
  lemma LaterIndex(stored: seq<Stored>, first: seq<Stored>, rest: seq<Stored>, all: seq<Stored>, i: int)
    requires all == first + rest
    requires |stored + first| <= i < |stored + first| + |rest| && (stored + first + rest)[i].StoredOperation?
    ensures |stored| <= i < |stored| + |all| && (stored + all)[i].StoredOperation?
  {
    assert stored + first + rest == stored + all;
  }

  /** The failure of one operation, wrapped, names that operation's own index. */
  lemma FirstFailureNamed(refl: Reflection, host: Host, op: MappingOperation, env: Env, slot: nat)
    requires Run(refl, host, op, env, slot, true).Throw?
    ensures var e := Run(refl, host, op, env, slot, true).error;
      e.EmitMapperException? && e.message == ErrorInMappingOperation && e.operation == slot
  {
    WrappedFailure(refl, host, op, env, slot);
  }

  /** With wrapping, a failing operation throws an EmitMapperException naming its own index. */
  lemma WrappedFailure(refl: Reflection, host: Host, op: MappingOperation, env: Env, slot: nat)
    requires Run(refl, host, op, env, slot, true).Throw?
    ensures Run(refl, host, op, env, slot, true).error
         == EmitMapperException(ErrorInMappingOperation, RunOp(refl, host, op, env, slot, true).error, slot)
  {
  }

  /** The generated code of a whole list, with exception wrapping, reports failures that way. */
  lemma GeneratedFailuresNameTheirOperation(refl: Reflection, host: Host, ops: seq<MappingOperation>, env: Env)
    requires Build(refl, ops, [], true).Ok? && Generated(refl, host, ops, env, true).Throw?
    ensures Build(refl, ops, [], true).value.stored == StoredByAll(refl, ops)
    ensures var e := Generated(refl, host, ops, env, true).error;
      && e.EmitMapperException? && e.message == ErrorInMappingOperation
      && e.operation < |StoredByAll(refl, ops)| && StoredByAll(refl, ops)[e.operation].StoredOperation?
  {
    var l := Build(refl, ops, [], true).value;
    assert [] + StoredByAll(refl, ops) == l.stored;
    GeneratedCodeMeaning(refl, host, ops, [], true, l.stored, env);
    FailuresNameTheirOperation(refl, host, ops, [], env);
  }

  /**
    Without exception wrapping, StoredObjects indices only name failures:
    the operations do the same whatever index they start at.
   */
  lemma {:induction false} RunOpIndexFree(refl: Reflection, host: Host, op: MappingOperation, env: Env, a: nat, b: nat)
    decreases op, 2
    ensures RunOp(refl, host, op, env, a, false) == RunOp(refl, host, op, env, b, false)
  {
    match op
    case OperationsBlock(ops) =>
      RunAllIndexFree(refl, host, ops, env, a + 1, b + 1);
    case ReadWriteComplex(_, _, ops, converter, _, _, _, _, _) =>
      if converter.None? {
        forall env': Env, x: nat, y: nat
          ensures RunAll(refl, host, ops, env', x, false) == RunAll(refl, host, ops, env', y, false)
        {
          RunAllIndexFree(refl, host, ops, env', x, y);
        }
        assert Copy(refl, host, op, env, a + 1, false) == Copy(refl, host, op, env, b + 1, false);
      }
    case _ =>
  }

  lemma {:induction false} RunAllIndexFree(refl: Reflection, host: Host, ops: seq<MappingOperation>, env: Env, a: nat, b: nat)
    decreases ops, 0
    ensures RunAll(refl, host, ops, env, a, false) == RunAll(refl, host, ops, env, b, false)
  {
    if ops != [] {
      var k := |StoredBy(refl, ops[0])|;
      RunAllStep(refl, host, ops, env, a, false, a + k);
      RunAllStep(refl, host, ops, env, b, false, b + k);
      RunOpIndexFree(refl, host, ops[0], env, a, b);
      var r := Run(refl, host, ops[0], env, a, false);
      if r.Ok? {
        RunAllIndexFree(refl, host, ops[1..], env.(to := r.value), a + k, b + k);
      }
    }
  }

  /** Without exception wrapping, a block does what its operations do in its place. */
  lemma BlockIsTransparent(refl: Reflection, host: Host, ops: seq<MappingOperation>, env: Env)
    requires BuildableAll(refl, ops)
    ensures Build(refl, [OperationsBlock(ops)], [], false).Ok? && Build(refl, ops, [], false).Ok?
    ensures Generated(refl, host, [OperationsBlock(ops)], env, false) == Generated(refl, host, ops, env, false)
  {
    GeneratedOne(refl, host, OperationsBlock(ops), env, false);
    BuildSucceeds(refl, ops, [], false);
    var l := Build(refl, ops, [], false).value;
    assert [] + StoredByAll(refl, ops) == l.stored;
    GeneratedCodeMeaning(refl, host, ops, [], false, l.stored, env);
    RunAllIndexFree(refl, host, ops, env, 1, 0);
  }

  /**
    The source value ReadSrcMappingValue produces reads the source member
    for a source-reading operation, and calls the getter with the state for
    a destination write with a getter.
   */
  lemma ReadSrcMappingValueReads(refl: Reflection, host: Host, op: MappingOperation, store: seq<Stored>, id: nat, env: Env)
    requires id < |store| && store[id] == StoredOperation(op)
    requires HasSource(op) || (op.DestWriteOperation? && op.getter.Some?)
    ensures HasSource(op) ==>
      Eval(refl, host, store, env, ReadSrcMappingValue(op, id).value) == ReadChain(env.from, op.source.membersChain)
    ensures !HasSource(op) ==>
      Eval(refl, host, store, env, ReadSrcMappingValue(op, id).value) == host.invoke(op.getter.value, [env.state])
  {
    EvalSingle(refl, host, store, env, ReadState);
  }
}
