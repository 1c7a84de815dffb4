/**
  What a mapping operation does when the mapper runs, stated directly on the
  operation (its delegates, member chains and member types), and the proof
  that the code MappingOperationsProcessor produces does exactly that once
  StoredObjects holds what processing registered.
 */
module Meaning {
  import opened Values
  import opened Operations
  import opened Ast
  import opened Processor
  import opened Building

  /** A filter: `body` runs only when the filter accepts (value, state); without a filter it always runs. */
  function Filter(host: Host, filter: Option<nat>, value: Result<Value>, env: Env, body: Result<Value>): Result<Value> {
    match filter
    case None => body
    case Some(f) =>
      var v :- value;
      var pass :- host.test(f, [v, env.state]);
      if pass then body else Ok(env.to)
  }

  /** The destination filter on the destination member is the outer test, the source filter on the source member the inner one. */
  function WithFilters(host: Host, op: MappingOperation, env: Env, body: Result<Value>): Result<Value>
    requires op.ReadWriteSimple? || op.ReadWriteComplex?
  {
    Filter(host, op.destinationFilter, ReadChain(env.to, op.destination.membersChain), env,
      Filter(host, op.sourceFilter, ReadChain(env.from, op.source.membersChain), env, body))
  }

  /**
    The conversion of a present source value `s` in a simple copy: the user
    converter; else `s` itself for a shallow copy between equal types; else
    the static converter; else the nested mapper for the member types, given
    the source member and the current destination member.
   */
  function Convert(refl: Reflection, host: Host, op: MappingOperation, s: Value, env: Env): Result<Value>
    requires op.ReadWriteSimple?
  {
    if op.converter.Some? then host.invoke(op.converter.value, [s, env.state])
    else if op.shallowCopy && op.destination.memberType == op.source.memberType then Ok(s)
    else match refl.staticConverter(op.source.memberType, op.destination.memberType)
      case Some(m) => host.staticCall(m, s)
      case None =>
        var source :- ReadChain(env.from, op.source.membersChain);
        var destination :- ReadChain(env.to, op.destination.membersChain);
        host.mapWith(op.source.memberType, op.destination.memberType, source, destination, env.state)
  }

  /** The value a simple copy writes: the substitute for an absent source when it substitutes nulls, the converted source otherwise. */
  function SimpleValue(refl: Reflection, host: Host, op: MappingOperation, env: Env): Result<Value>
    requires op.ReadWriteSimple?
  {
    var s :- ReadChain(env.from, op.source.membersChain);
    if SubstitutesNull(refl, op) && Absent(s, IsNullable(op.source.memberType))
    then host.invoke(op.nullSubstitutor.value, [env.state])
    else Convert(refl, host, op, s, env)
  }

  /** The value written for an absent source of a complex copy: substitutor(state), or null. */
  function NullValue(host: Host, nullSubstitutor: Option<nat>, env: Env): Result<Value> {
    match nullSubstitutor
    case Some(d) => host.invoke(d, [env.state])
    case None => Ok(Null)
  }

  /** A missing destination member: made by the target constructor when set, by default construction otherwise. */
  function Created(refl: Reflection, host: Host, op: MappingOperation): Result<Value>
    requires op.ReadWriteComplex?
  {
    match op.targetConstructor
    case Some(c) => host.invoke(c, [])
    case None => NewDestination(refl, host, op.destination.memberType)
  }

  /**
    A complex copy without a converter.  `next` is the StoredObjects index
    after the operation's own, which places its nested operations.
   */
  function Copy(refl: Reflection, host: Host, op: MappingOperation, env: Env, next: nat, wrap: bool): Result<Value>
    requires op.ReadWriteComplex?
    decreases op, 1
  {
    var sourceType := op.source.memberType;
    var destinationType := op.destination.memberType;
    var tempSrc :- ReadChain(env.from, op.source.membersChain);
    var tempDst :- ReadChain(env.to, op.destination.membersChain);
    if CanBeAbsent(refl, sourceType) && Absent(tempSrc, IsNullable(sourceType)) then
      var v :- NullValue(host, op.nullSubstitutor, env);
      WriteChain(env.to, op.destination.membersChain, v)
    else
      var src :- Unwrap(tempSrc, IsNullable(sourceType));
      var created :- if CanBeAbsent(refl, destinationType) && Absent(tempDst, IsNullable(destinationType))
                     then Created(refl, host, op) else Ok(tempDst);
      var dst :- Unwrap(created, IsNullable(destinationType));
      var nestedSlot := next + |StoredDelegates(op.nullSubstitutor)| + |StoredDelegates(op.targetConstructor)|;
      var copied :- RunAll(refl, host, op.operations, Env(src, dst, env.state), nestedSlot, wrap);
      var processed := if IsNullable(destinationType) then Wrapped(copied) else copied;
      var result :- PostProcessed(host, op.valuesPostProcessor, env, processed);
      WriteChain(env.to, op.destination.membersChain, result)
  }

  /** The values post-processor applied to (value, state), when there is one. */
  function PostProcessed(host: Host, postProcessor: Option<nat>, env: Env, value: Value): Result<Value> {
    match postProcessor
    case Some(p) => host.invoke(p, [value, env.state])
    case None => Ok(value)
  }

  /** What one operation does to the destination, before exception wrapping. */
  function RunOp(refl: Reflection, host: Host, op: MappingOperation, env: Env, slot: nat, wrap: bool): Result<Value>
    decreases op, 2
  {
    match op
    case OperationsBlock(ops) => RunAll(refl, host, ops, env, slot + 1, wrap)
    case ReadWriteComplex(source, destination, _, converter, _, _, _, _, _) =>
      WithFilters(host, op, env,
        if converter.Some? then
          var s :- ReadChain(env.from, source.membersChain);
          var v :- host.invoke(converter.value, [s, env.state]);
          WriteChain(env.to, destination.membersChain, v)
        else Copy(refl, host, op, env, slot + 1, wrap))
    case DestSrcReadOperation(source, destination, valueProcessor) =>
      if valueProcessor.None? then Throw(NullReference)
      else
        var s :- ReadChain(env.from, source.membersChain);
        var d :- ReadChain(env.from, destination.membersChain);
        var _ :- host.invoke(valueProcessor.value, [s, d, env.state]);
        Ok(env.to)
    case SrcReadOperation(source, setter) =>
      if setter.None? then Throw(NullReference)
      else
        var s :- ReadChain(env.from, source.membersChain);
        host.setValue(setter.value, env.to, s, env.state)
    case DestWriteOperation(destination, getter) =>
      if getter.None? then Throw(NullReference)
      else
        var w :- host.get(getter.value, env.from, env.state);
        if w.action == 0 then WriteChain(env.to, destination.membersChain, w.value) else Ok(env.to)
    case ReadWriteSimple(_, destination, _, _, _, _, _) =>
      WithFilters(host, op, env,
        var v :- SimpleValue(refl, host, op, env);
        WriteChain(env.to, destination.membersChain, v))
    case OtherOperation => Ok(env.to)
  }

  /** One operation at StoredObjects index `slot`; with `wrap`, its exception is wrapped with that index. */
  function Run(refl: Reflection, host: Host, op: MappingOperation, env: Env, slot: nat, wrap: bool): Result<Value>
    decreases op, 3
  {
    var r := RunOp(refl, host, op, env, slot, wrap);
    if wrap && !op.OtherOperation? && r.Throw? then Throw(EmitMapperException(ErrorInMappingOperation, r.error, slot))
    else r
  }

  /** The operations in order, the first at index `slot`, each on the destination the previous one left. */
  function RunAll(refl: Reflection, host: Host, ops: seq<MappingOperation>, env: Env, slot: nat, wrap: bool): Result<Value>
    decreases ops, 0
  {
    if ops == [] then Ok(env.to)
    else
      var to :- Run(refl, host, ops[0], env, slot, wrap);
      RunAll(refl, host, ops[1..], env.(to := to), slot + |StoredBy(refl, ops[0])|, wrap)
  }

  // ----------------------------------------------------- the generated code

  /** One IfFilter node tests the filter stored in the operation's `field` property. */
  lemma ExecIfFilter(refl: Reflection, host: Host, final: seq<Stored>, env: Env, op: MappingOperation, id: nat,
                     field: DelegateField, root: Root, chain: Path, body: Node)
    requires id < |final| && final[id] == StoredOperation(op) && DelegateOf(op, field).Some?
    ensures Exec(refl, host, final, env, IfFilter(id, field, ReadMembers(root, chain), body))
         == Filter(host, DelegateOf(op, field), ReadChain(RootValue(env, root), chain), env, Exec(refl, host, final, env, body))
  {
  }

  lemma ExecFiltered(refl: Reflection, host: Host, final: seq<Stored>, env: Env, op: MappingOperation, id: nat, body: Node)
    requires op.ReadWriteSimple? || op.ReadWriteComplex?
    requires id < |final| && final[id] == StoredOperation(op)
    ensures Exec(refl, host, final, env, Filtered(op, id, body)) == WithFilters(host, op, env, Exec(refl, host, final, env, body))
  {
    var withSource := if op.sourceFilter.Some? then ProcessSourceFilter(op, id, body) else body;
    if op.sourceFilter.Some? {
      ExecIfFilter(refl, host, final, env, op, id, SourceFilter, From, op.source.membersChain, body);
    }
    if op.destinationFilter.Some? {
      ExecIfFilter(refl, host, final, env, op, id, DestinationFilter, To, op.destination.membersChain, withSource);
    }
  }

  /** The code of a simple copy does what RunOp says. */
  lemma ExecSimple(refl: Reflection, host: Host, op: MappingOperation, stored: seq<Stored>, wrap: bool, final: seq<Stored>, env: Env)
    requires op.ReadWriteSimple?
    requires |stored| >= 1 && stored[|stored| - 1] == StoredOperation(op)
    requires LowerSimple(refl, op, |stored| - 1, stored).Ok? && LowerSimple(refl, op, |stored| - 1, stored).value.stored <= final
    ensures Exec(refl, host, final, env, LowerSimple(refl, op, |stored| - 1, stored).value.value)
         == RunOp(refl, host, op, env, |stored| - 1, wrap)
  {
    var id := |stored| - 1;
    var sourceValue := ReadMembers(From, op.source.membersChain);
    var converted := LowerConverted(refl, op, id, sourceValue, stored).value;
    assert final[id] == stored[id];
    ConvertedCode(refl, host, op, stored, final, env);
    ExecFiltered(refl, host, final, env, op, id, WriteMappingValue(op, id, converted.value));
  }

  /** The value the code of a simple copy computes is SimpleValue. */
  lemma ConvertedCode(refl: Reflection, host: Host, op: MappingOperation, stored: seq<Stored>, final: seq<Stored>, env: Env)
    requires op.ReadWriteSimple?
    requires |stored| >= 1 && stored[|stored| - 1] == StoredOperation(op)
    requires MapperAvailable(refl, op) && stored + StoredBy(refl, op)[1..] <= final
    ensures Eval(refl, host, final, env, LowerConverted(refl, op, |stored| - 1, ReadMembers(From, op.source.membersChain), stored).value.value)
         == SimpleValue(refl, host, op, env)
  {
    var id := |stored| - 1;
    var sourceValue := ReadMembers(From, op.source.membersChain);
    var converted := LowerConverted(refl, op, id, sourceValue, stored).value;
    assert final[id] == stored[id];
    if SubstitutesNull(refl, op) {
      var nullValue := LowerNullValue(op.nullSubstitutor, stored);
      assert final[|stored|] == converted.stored[|stored|] == StoredDelegate(op.nullSubstitutor.value);
      EvalSingle(refl, host, final, env, ReadState);
      ExecConversion(refl, host, op, id, sourceValue, nullValue.stored, final, env);
    } else {
      ExecConversion(refl, host, op, id, sourceValue, stored, final, env);
    }
  }

  /** The copy node of a complex copy does what Copy says. */
  lemma {:induction false} ExecCopying(refl: Reflection, host: Host, op: MappingOperation, stored: seq<Stored>, wrap: bool,
                                       final: seq<Stored>, env: Env)
    requires op.ReadWriteComplex?
    requires LowerCopying(refl, op, stored, wrap).Ok? && LowerCopying(refl, op, stored, wrap).value.stored <= final
    decreases op, 1
    ensures Exec(refl, host, final, env, LowerCopying(refl, op, stored, wrap).value.value)
         == Copy(refl, host, op, env, |stored|, wrap)
  {
    var r := LowerCopying(refl, op, stored, wrap).value;
    var nullValue := LowerNullValue(op.nullSubstitutor, stored);
    var init := LowerInit(op, nullValue.stored);
    var nested := LowerOps(refl, op.operations, init.stored, wrap).value;
    var post := LowerPostProcessor(op.valuesPostProcessor, nested.stored);
    assert r.stored == post.stored;
    assert nested.stored <= final;
    assert init.stored <= final;
    NullValueCode(refl, host, op.nullSubstitutor, stored, final, env);
    InitCode(refl, host, op, nullValue.stored, final, env);
    PostCode(host, op.valuesPostProcessor, nested.stored, final, env);
    forall env': Env
      ensures ExecAll(refl, host, final, env', nested.value)
           == RunAll(refl, host, op.operations, env', |init.stored|, wrap)
    {
      ExecAllMeans(refl, host, op.operations, init.stored, wrap, final, env');
    }
    ExecCopyNode(refl, host, final, env, op, r.value, |stored|, wrap);
  }

  /** The null value of a complex copy evaluates to the substitutor's result, or null. */
  lemma NullValueCode(refl: Reflection, host: Host, nullSubstitutor: Option<nat>, stored: seq<Stored>, final: seq<Stored>, env: Env)
    requires stored + StoredDelegates(nullSubstitutor) <= final
    ensures Eval(refl, host, final, env, LowerNullValue(nullSubstitutor, stored).value) == NullValue(host, nullSubstitutor, env)
  {
    if nullSubstitutor.Some? {
      assert final[|stored|] == (stored + StoredDelegates(nullSubstitutor))[|stored|];
      EvalSingle(refl, host, final, env, ReadState);
    }
  }

  /** The creation code of a complex copy calls the target constructor, or constructs by default. */
  lemma InitCode(refl: Reflection, host: Host, op: MappingOperation, stored: seq<Stored>, final: seq<Stored>, env: Env)
    requires op.ReadWriteComplex? && stored + StoredDelegates(op.targetConstructor) <= final
    ensures Eval(refl, host, final, env, LowerInit(op, stored).value) == Created(refl, host, op)
  {
    if op.targetConstructor.Some? {
      assert final[|stored|] == (stored + StoredDelegates(op.targetConstructor))[|stored|];
      assert EvalAll(refl, host, final, env, []) == Ok([]);
    }
  }

  /** The post-processing code of a complex copy applies the post-processor, if any. */
  lemma PostCode(host: Host, postProcessor: Option<nat>, stored: seq<Stored>, final: seq<Stored>, env: Env)
    requires stored + StoredDelegates(postProcessor) <= final
    ensures forall v :: PostProcess(host, final, env, LowerPostProcessor(postProcessor, stored).value, v)
                     == PostProcessed(host, postProcessor, env, v)
  {
    if postProcessor.Some? {
      assert final[|stored|] == (stored + StoredDelegates(postProcessor))[|stored|];
    }
  }

  /** A copy node whose parts do what the operation's delegates do runs as Copy says. */
  lemma ExecCopyNode(refl: Reflection, host: Host, final: seq<Stored>, env: Env, op: MappingOperation, node: Node, next: nat, wrap: bool)
    requires op.ReadWriteComplex? && node.CopyComplex?
    requires node.sourceChain == op.source.membersChain && node.destinationChain == op.destination.membersChain
    requires node.sourceNullable == IsNullable(op.source.memberType)
    requires node.sourceChecked == CanBeAbsent(refl, op.source.memberType)
    requires node.destinationNullable == IsNullable(op.destination.memberType)
    requires node.destinationInit == CanBeAbsent(refl, op.destination.memberType)
    requires Eval(refl, host, final, env, node.nullValue) == NullValue(host, op.nullSubstitutor, env)
    requires Eval(refl, host, final, env, node.init) == Created(refl, host, op)
    requires forall v :: PostProcess(host, final, env, node.postProcessor, v) == PostProcessed(host, op.valuesPostProcessor, env, v)
    requires forall env': Env ::
               ExecAll(refl, host, final, env', node.nested) == RunAll(refl, host, op.operations, env', next + |StoredDelegates(op.nullSubstitutor)| + |StoredDelegates(op.targetConstructor)|, wrap)
    ensures Exec(refl, host, final, env, node) == Copy(refl, host, op, env, next, wrap)
  {
  }

  /** The code of a complex copy, by converter or by copying and inside its filters, does what RunOp says. */
  lemma {:induction false} ExecComplex(refl: Reflection, host: Host, op: MappingOperation, stored: seq<Stored>, wrap: bool,
                                       final: seq<Stored>, env: Env)
    requires op.ReadWriteComplex?
    requires |stored| >= 1 && stored[|stored| - 1] == StoredOperation(op)
    requires LowerComplex(refl, op, |stored| - 1, stored, wrap).Ok?
    requires LowerComplex(refl, op, |stored| - 1, stored, wrap).value.stored <= final
    decreases op, 2
    ensures Exec(refl, host, final, env, LowerComplex(refl, op, |stored| - 1, stored, wrap).value.value)
         == RunOp(refl, host, op, env, |stored| - 1, wrap)
  {
    var id := |stored| - 1;
    assert final[id] == stored[id];
    if op.converter.Some? {
      EvalPair(refl, host, final, env, ReadMembers(From, op.source.membersChain), ReadState);
      ExecFiltered(refl, host, final, env, op, id, ProcessReadWriteComplexByConverter(op, id));
    } else {
      var copying := LowerCopying(refl, op, stored, wrap).value;
      ExecCopying(refl, host, op, stored, wrap, final, env);
      ExecFiltered(refl, host, final, env, op, id, copying.value);
    }
  }

  /**
    The code of one operation does what Run says, its exception wrapped with
    the operation's index when `wrap`; an operation without code changes nothing.
   */
  lemma {:induction false} ExecOne(refl: Reflection, host: Host, op: MappingOperation, stored: seq<Stored>, wrap: bool,
                                   final: seq<Stored>, env: Env)
    requires LowerOne(refl, op, stored, wrap).Ok? && LowerOne(refl, op, stored, wrap).value.stored <= final
    decreases op, 4
    ensures var n := LowerOne(refl, op, stored, wrap).value.value;
      && (n.Some? ==> Exec(refl, host, final, env, n.value) == Run(refl, host, op, env, |stored|, wrap))
      && (n.None? ==> Run(refl, host, op, env, |stored|, wrap) == Ok(env.to))
  {
    ExecKind(refl, host, op, stored, wrap, final, env);
  }

  /** The code of one operation before its exceptions are wrapped does what RunOp says. */
  lemma {:induction false} ExecKind(refl: Reflection, host: Host, op: MappingOperation, stored: seq<Stored>, wrap: bool,
                                    final: seq<Stored>, env: Env)
    requires LowerKind(refl, op, stored, wrap).Ok? && LowerKind(refl, op, stored, wrap).value.stored <= final
    decreases op, 3
    ensures var n := LowerKind(refl, op, stored, wrap).value.value;
      && (n.Some? ==> Exec(refl, host, final, env, n.value) == RunOp(refl, host, op, env, |stored|, wrap))
      && (n.None? ==> RunOp(refl, host, op, env, |stored|, wrap) == Ok(env.to))
  {
    var withOp := stored + [StoredOperation(op)];
    var kind := LowerKind(refl, op, stored, wrap).value;
    assert final[|stored|] == kind.stored[|stored|] == StoredOperation(op);
    match op
    case OperationsBlock(ops) =>
      assert kind == LowerBlock(refl, op, stored, wrap).value;
      ExecAllMeans(refl, host, ops, withOp, wrap, final, env);
    case ReadWriteComplex(_, _, _, _, _, _, _, _, _) =>
      assert kind == LowerComplexStep(refl, op, stored, wrap).value;
      ExecComplex(refl, host, op, withOp, wrap, final, env);
    case ReadWriteSimple(_, _, _, _, _, _, _) =>
      assert kind == LowerSimpleStep(refl, op, stored).value;
      ExecSimple(refl, host, op, withOp, wrap, final, env);
    case OtherOperation =>
    case _ =>
      assert Exec(refl, host, final, env, kind.value.value) == RunOp(refl, host, op, env, |stored|, wrap);
  }

  /**
    The code of a list of operations does what RunAll says, once StoredObjects
    starts with everything processing registered.
   */
  lemma {:induction false} ExecAllMeans(refl: Reflection, host: Host, ops: seq<MappingOperation>, stored: seq<Stored>, wrap: bool,
                                        final: seq<Stored>, env: Env)
    requires LowerOps(refl, ops, stored, wrap).Ok? && LowerOps(refl, ops, stored, wrap).value.stored <= final
    decreases ops, 0
    ensures ExecAll(refl, host, final, env, LowerOps(refl, ops, stored, wrap).value.value)
         == RunAll(refl, host, ops, env, |stored|, wrap)
  {
    if ops != [] {
      var first := LowerOne(refl, ops[0], stored, wrap).value;
      var rest := LowerOps(refl, ops[1..], first.stored, wrap).value;
      var nodes := LowerOps(refl, ops, stored, wrap).value.value;
      assert nodes == NodesOf(first.value) + rest.value;
      assert first.stored <= rest.stored;
      assert |first.stored| == |stored| + |StoredBy(refl, ops[0])|;
      ExecOne(refl, host, ops[0], stored, wrap, final, env);
      ExecAllPrefix(refl, host, final, env, first.value, rest.value);
      RunAllStep(refl, host, ops, env, |stored|, wrap, |first.stored|);
      var r := Run(refl, host, ops[0], env, |stored|, wrap);
      if r.Ok? {
        var env' := env.(to := r.value);
        ExecAllMeans(refl, host, ops[1..], first.stored, wrap, final, env');
        if first.value.None? {
          assert env' == env;
        }
        assert ExecAll(refl, host, final, env, nodes) == ExecAll(refl, host, final, env', rest.value);
      } else {
        assert first.value.Some?;
        assert ExecAll(refl, host, final, env, nodes) == Throw(r.error);
      }
    }
  }

  /** The first operation runs, then the rest from `next`, the index after everything it stored. */
  lemma RunAllStep(refl: Reflection, host: Host, ops: seq<MappingOperation>, env: Env, slot: nat, wrap: bool, next: nat)
    requires ops != [] && next == slot + |StoredBy(refl, ops[0])|
    ensures var r := Run(refl, host, ops[0], env, slot, wrap);
      RunAll(refl, host, ops, env, slot, wrap)
      == if r.Ok? then RunAll(refl, host, ops[1..], env.(to := r.value), next, wrap) else Throw(r.error)
  {
  }

  /** Running the node of an operation, if it has one, then the nodes of the rest. */
  lemma ExecAllPrefix(refl: Reflection, host: Host, store: seq<Stored>, env: Env, n: Option<Node>, rest: seq<Node>)
    ensures ExecAll(refl, host, store, env, NodesOf(n) + rest)
         == if n.None? then ExecAll(refl, host, store, env, rest)
            else (var to :- Exec(refl, host, store, env, n.value); ExecAll(refl, host, store, env.(to := to), rest))
  {
    if n.Some? {
      var nodes := [n.value] + rest;
      assert nodes[0] == n.value && nodes[1..] == rest;
    } else {
      assert NodesOf(n) + rest == rest;
    }
  }

  /** The conversion code of a simple copy computes Convert of the source member. */
  lemma ExecConversion(refl: Reflection, host: Host, op: MappingOperation, id: nat, sourceValue: Expr,
                       stored: seq<Stored>, final: seq<Stored>, env: Env)
    requires op.ReadWriteSimple? && sourceValue == ReadMembers(From, op.source.membersChain)
    requires id < |stored| && stored[id] == StoredOperation(op)
    requires LowerConversion(refl, op, id, sourceValue, stored).Ok? && LowerConversion(refl, op, id, sourceValue, stored).value.stored <= final
    ensures var s := ReadChain(env.from, op.source.membersChain);
      Eval(refl, host, final, env, LowerConversion(refl, op, id, sourceValue, stored).value.value)
      == if s.Ok? then Convert(refl, host, op, s.value, env) else Throw(s.error)
  {
    var s := ReadChain(env.from, op.source.membersChain);
    var r := LowerConversion(refl, op, id, sourceValue, stored).value;
    assert final[id] == r.stored[id] == stored[id];
    if op.converter.Some? {
      EvalPair(refl, host, final, env, sourceValue, ReadState);
    } else if op.shallowCopy && op.destination.memberType == op.source.memberType {
    } else if refl.staticConverter(op.source.memberType, op.destination.memberType).None? {
      assert final[|stored|] == r.stored[|stored|] == StoredMapper(op.source.memberType, op.destination.memberType);
    }
  }

  /** The two arguments of a call, evaluated left to right. */
  lemma EvalPair(refl: Reflection, host: Host, store: seq<Stored>, env: Env, a: Expr, b: Expr)
    ensures EvalAll(refl, host, store, env, [a, b])
         == (var x :- Eval(refl, host, store, env, a); var y :- Eval(refl, host, store, env, b); Ok([x, y]))
  {
    assert [a, b][1..] == [b];
    EvalSingle(refl, host, store, env, b);
    var ra := Eval(refl, host, store, env, a);
    var rb := Eval(refl, host, store, env, b);
    if ra.Ok? && rb.Ok? {
      assert [ra.value] + [rb.value] == [ra.value, rb.value];
    }
  }

  /** The single argument of a call. */
  lemma EvalSingle(refl: Reflection, host: Host, store: seq<Stored>, env: Env, a: Expr)
    ensures EvalAll(refl, host, store, env, [a]) == (var x :- Eval(refl, host, store, env, a); Ok([x]))
  {
    assert [a][1..] == [];
    assert EvalAll(refl, host, store, env, []) == Ok([]);
    var ra := Eval(refl, host, store, env, a);
    if ra.Ok? {
      assert [ra.value] + [] == [ra.value];
    }
  }

  // ------------------------------------------------------ what mappers do

  /**
    The code of the mapper built for `ops`, processed with an empty
    StoredObjects list, run with StoredObjects holding what processing
    registered.
   */
  function Generated(refl: Reflection, host: Host, ops: seq<MappingOperation>, env: Env, wrap: bool): Result<Value>
    requires Build(refl, ops, [], wrap).Ok?
  {
    var l := Build(refl, ops, [], wrap).value;
    Exec(refl, host, l.stored, env, Complex(l.value))
  }

  /**
    The code of a mapper that is built does what RunAll says, whatever
    StoredObjects held before processing and whatever was added after it.
   */
  lemma GeneratedCodeMeaning(refl: Reflection, host: Host, ops: seq<MappingOperation>, stored: seq<Stored>, wrap: bool,
                             final: seq<Stored>, env: Env)
    requires Build(refl, ops, stored, wrap).Ok?
    requires stored + StoredByAll(refl, ops) <= final
    ensures BuildableAll(refl, ops)
    ensures Exec(refl, host, final, env, Complex(Build(refl, ops, stored, wrap).value.value))
         == RunAll(refl, host, ops, env, |stored|, wrap)
  {
    BuildSucceeds(refl, ops, stored, wrap);
    ExecAllMeans(refl, host, ops, stored, wrap, final, env);
  }

  /** A mapper for one buildable operation is built, and its code does what Run says for the operation at index 0. */
  lemma GeneratedOne(refl: Reflection, host: Host, op: MappingOperation, env: Env, wrap: bool)
    requires Buildable(refl, op)
    ensures Build(refl, [op], [], wrap).Ok?
    ensures Generated(refl, host, [op], env, wrap) == Run(refl, host, op, env, 0, wrap)
  {
    assert [op][1..] == [];
    BuildableOne(refl, op);
    BuildSucceeds(refl, [op], [], wrap);
    var l := Build(refl, [op], [], wrap).value;
    GeneratedCodeMeaning(refl, host, [op], [], wrap, l.stored, env);
    RunAllStep(refl, host, [op], env, 0, wrap, |StoredBy(refl, op)|);
  }
}
