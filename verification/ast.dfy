/**
  The code a MappingOperationsProcessor generates, as a tree of nodes, and
  what that code does when the mapper runs.  Stored objects are referred to
  by their StoredObjects index ("slot"); a delegate property of a stored
  operation is read back from the operation at run time, as the generated
  code does.
 */
module Ast {
  import opened Values
  import opened Operations
  import NewObjects

  /** The locals generated code reads from: LocFrom and LocTo. */
  datatype Root = From | To

  /** Expressions of the generated code. */
  datatype Expr =
    | ReadMembers(root: Root, chain: Path)                        // ReadMembersChain(LocFrom/LocTo, chain)
    | ReadState                                                    // LocState
    | NullConstant                                                 // AstConstantNull
    | InvokeOperationDelegate(slot: nat, field: DelegateField, args: seq<Expr>)
        // ((D)((Op)StoredObjects[slot]).Field).Invoke(args)
    | InvokeStoredDelegate(slot: nat, args: seq<Expr>)             // ((D)StoredObjects[slot]).Invoke(args)
    | CallStaticConverter(converter: nat, arg: Expr)                // a static converter method
    | CallMapper(slot: nat, source: Expr, destination: Expr)       // StoredObjects[slot].Mapper.Map(source, destination, LocState)
    | IfAbsent(nullable: bool, test: Expr, absent: Expr, present: Expr) // the null-substitution ternary
    | NewDefault(objectType: Type)                                 // new AstNewObject(objectType, null)

  /** Statements of the generated code. */
  datatype Node =
    | Complex(nodes: seq<Node>)                                    // AstComplexNode
    | WriteMembers(chain: Path, value: Expr)                       // WriteMembersChain(chain, LocTo, value)
    | IfFilter(slot: nat, field: DelegateField, value: Expr, body: Node)
        // if (filter(value, LocState)) body, with the filter read from the stored operation
    | WriteGetterValue(slot: nat, chain: Path)                     // a destination write through ValueToWrite
    | InvokeSetter(slot: nat, value: Expr)                         // Setter(LocTo, value, LocState)
    | InvokeValueProcessor(slot: nat, source: Expr, destination: Expr) // ValueProcessor(source, destination, LocState)
    | CopyComplex(
        sourceChain: Path,
        destinationChain: Path,
        sourceNullable: bool,      // the source member is Nullable<T>
        sourceChecked: bool,       // the source member can be absent (Nullable<T> or a reference type)
        destinationNullable: bool, // the destination member is Nullable<T>
        destinationInit: bool,     // a missing destination member is created
        nullValue: Expr,           // written when the source is absent
        init: Expr,                // creates a missing destination member
        nested: seq<Node>,         // the nested operations, run on the source and destination members
        postProcessor: Option<nat>)   // slot of the values post-processor
    | CatchAndWrap(slot: nat, body: Node)                          // the try/catch of CreateExceptionHandlingBlock

  const ErrorInMappingOperation: string := "Error in mapping operation execution: "

  /** A delegate property of the operation stored at `slot`; a null property throws when invoked. */
  function OperationDelegate(store: seq<Stored>, slot: nat, field: DelegateField): (r: Result<nat>)
    ensures r.Ok? <==> slot < |store| && store[slot].StoredOperation? && DelegateOf(store[slot].operation, field).Some?
    ensures r.Ok? ==> r.value == DelegateOf(store[slot].operation, field).value
  {
    if slot >= |store| then Throw(IndexOutOfRange)
    else match store[slot]
      case StoredOperation(op) =>
        (match DelegateOf(op, field)
         case Some(d) => Ok(d)
         case None => Throw(NullReference))
      case _ => Throw(InvalidCast)
  }

  /** The delegate stored at `slot`. */
  function StoredDelegateAt(store: seq<Stored>, slot: nat): (r: Result<nat>)
    ensures r.Ok? <==> slot < |store| && store[slot].StoredDelegate?
    ensures r.Ok? ==> r.value == store[slot].delegate
  {
    if slot >= |store| then Throw(IndexOutOfRange)
    else match store[slot]
      case StoredDelegate(d) => Ok(d)
      case _ => Throw(InvalidCast)
  }

  /** The member-type pair of the mapper stored at `slot`. */
  function StoredMapperAt(store: seq<Stored>, slot: nat): (r: Result<(Type, Type)>)
    ensures r.Ok? <==> slot < |store| && store[slot].StoredMapper?
    ensures r.Ok? ==> r.value == (store[slot].from, store[slot].to)
  {
    if slot >= |store| then Throw(IndexOutOfRange)
    else match store[slot]
      case StoredMapper(f, t) => Ok((f, t))
      case _ => Throw(InvalidCast)
  }

  function RootValue(env: Env, root: Root): Value {
    if root == From then env.from else env.to
  }

  /** The value of an expression, or the exception evaluating it throws. */
  function Eval(refl: Reflection, host: Host, store: seq<Stored>, env: Env, e: Expr): Result<Value>
    decreases e, 1
  {
    match e
    case ReadMembers(root, chain) => ReadChain(RootValue(env, root), chain)
    case ReadState => Ok(env.state)
    case NullConstant => Ok(Null)
    case InvokeOperationDelegate(slot, field, args) =>
      var d :- OperationDelegate(store, slot, field);
      var vs :- EvalAll(refl, host, store, env, args);
      host.invoke(d, vs)
    case InvokeStoredDelegate(slot, args) =>
      var d :- StoredDelegateAt(store, slot);
      var vs :- EvalAll(refl, host, store, env, args);
      host.invoke(d, vs)
    case CallStaticConverter(m, arg) =>
      var v :- Eval(refl, host, store, env, arg);
      host.staticCall(m, v)
    case CallMapper(slot, source, destination) =>
      var types :- StoredMapperAt(store, slot);
      var s :- Eval(refl, host, store, env, source);
      var d :- Eval(refl, host, store, env, destination);
      host.mapWith(types.0, types.1, s, d, env.state)
    case IfAbsent(nullable, test, absent, present) =>
      var v :- Eval(refl, host, store, env, test);
      if Absent(v, nullable) then Eval(refl, host, store, env, absent)
      else Eval(refl, host, store, env, present)
    case NewDefault(t) => NewDestination(refl, host, t)
  }

  /** The arguments of a call, evaluated left to right. */
  function EvalAll(refl: Reflection, host: Host, store: seq<Stored>, env: Env, args: seq<Expr>): Result<seq<Value>>
    decreases args, 0
  {
    if args == [] then Ok([])
    else
      var v :- Eval(refl, host, store, env, args[0]);
      var vs :- EvalAll(refl, host, store, env, args[1..]);
      Ok([v] + vs)
  }

  /** Nullable<T>.Value of a Nullable<T> member, the member itself otherwise. */
  function Unwrap(v: Value, nullable: bool): Result<Value> {
    if nullable then NullableValue(v) else Ok(v)
  }

  /**
    Running a node: the destination object (LocTo) afterwards, or the
    exception that escapes.  Writes made before an exception are not kept.
   */
  function Exec(refl: Reflection, host: Host, store: seq<Stored>, env: Env, n: Node): Result<Value>
    decreases n, 1
  {
    match n
    case Complex(nodes) => ExecAll(refl, host, store, env, nodes)
    case WriteMembers(chain, value) =>
      var v :- Eval(refl, host, store, env, value);
      WriteChain(env.to, chain, v)
    case IfFilter(slot, field, value, body) =>
      var d :- OperationDelegate(store, slot, field);
      var v :- Eval(refl, host, store, env, value);
      var pass :- host.test(d, [v, env.state]);
      if pass then Exec(refl, host, store, env, body) else Ok(env.to)
    case WriteGetterValue(slot, chain) =>
      var d :- OperationDelegate(store, slot, Getter);
      var w :- host.get(d, env.from, env.state);
      if w.action == 0 then WriteChain(env.to, chain, w.value) else Ok(env.to)
    case InvokeSetter(slot, value) =>
      var d :- OperationDelegate(store, slot, Setter);
      var v :- Eval(refl, host, store, env, value);
      host.setValue(d, env.to, v, env.state)
    case InvokeValueProcessor(slot, source, destination) =>
      var d :- OperationDelegate(store, slot, ValueProcessor);
      var s :- Eval(refl, host, store, env, source);
      var t :- Eval(refl, host, store, env, destination);
      var _ :- host.invoke(d, [s, t, env.state]);
      Ok(env.to)
    case CopyComplex(sourceChain, destinationChain, sourceNullable, sourceChecked, destinationNullable, destinationInit,
                     nullValue, init, nested, postProcessor) =>
      var tempSrc :- ReadChain(env.from, sourceChain);
      var tempDst :- ReadChain(env.to, destinationChain);
      if sourceChecked && Absent(tempSrc, sourceNullable) then
        var v :- Eval(refl, host, store, env, nullValue);
        WriteChain(env.to, destinationChain, v)
      else
        var src :- Unwrap(tempSrc, sourceNullable);
        var created :- if destinationInit && Absent(tempDst, destinationNullable)
                       then Eval(refl, host, store, env, init) else Ok(tempDst);
        var dst :- Unwrap(created, destinationNullable);
        var copied :- ExecAll(refl, host, store, Env(src, dst, env.state), nested);
        var processed := if destinationNullable then Wrapped(copied) else copied;
        var result :- PostProcess(host, store, env, postProcessor, processed);
        WriteChain(env.to, destinationChain, result)
    case CatchAndWrap(slot, body) =>
      match Exec(refl, host, store, env, body)
      case Ok(v) => Ok(v)
      case Throw(e) => Throw(EmitMapperException(ErrorInMappingOperation, e, slot))
  }

  /** The values post-processor of a complex copy, called with (value, LocState). */
  function PostProcess(host: Host, store: seq<Stored>, env: Env, postProcessor: Option<nat>, value: Value): Result<Value> {
    match postProcessor
    case None => Ok(value)
    case Some(slot) =>
      var p :- StoredDelegateAt(store, slot);
      host.invoke(p, [value, env.state])
  }

  /** The nodes of a complex node run in order, each on the destination the previous one left. */
  function ExecAll(refl: Reflection, host: Host, store: seq<Stored>, env: Env, nodes: seq<Node>): Result<Value>
    decreases nodes, 0
  {
    if nodes == [] then Ok(env.to)
    else
      var to :- Exec(refl, host, store, env, nodes[0]);
      ExecAll(refl, host, store, env.(to := to), nodes[1..])
  }

  // ------------------------------------------------------------ emission

  /**
    Emitting the IL of an expression, sub-expressions in order.  Only a
    parameterless new-object node can fail, as AstNewObject.Compile does for
    a type it has no way to create.
   */
  function EmitExpr(refl: Reflection, e: Expr): Result<()>
    decreases e, 1
  {
    match e
    case InvokeOperationDelegate(_, _, args) => EmitExprs(refl, args)
    case InvokeStoredDelegate(_, args) => EmitExprs(refl, args)
    case CallStaticConverter(_, arg) => EmitExpr(refl, arg)
    case CallMapper(_, source, destination) =>
      var _ :- EmitExpr(refl, source);
      EmitExpr(refl, destination)
    case IfAbsent(_, test, absent, present) =>
      var _ :- EmitExpr(refl, test);
      var _ :- EmitExpr(refl, absent);
      EmitExpr(refl, present)
    case NewDefault(t) =>
      var _ :- NewObjects.Compile(refl, NewObjects.NewObject(t, []));
      Ok(())
    case _ => Ok(())
  }

  function EmitExprs(refl: Reflection, args: seq<Expr>): Result<()>
    decreases args, 0
  {
    if args == [] then Ok(())
    else
      var _ :- EmitExpr(refl, args[0]);
      EmitExprs(refl, args[1..])
  }

  /**
    Emitting the IL of a node.  Both branches of a test are emitted whether
    or not they would run; the null branch of a copy exists only when the
    source is checked, and the creation of the destination only when it is
    initialised.
   */
  function Emit(refl: Reflection, n: Node): Result<()>
    decreases n, 1
  {
    match n
    case Complex(nodes) => EmitAll(refl, nodes)
    case WriteMembers(_, value) => EmitExpr(refl, value)
    case IfFilter(_, _, value, body) =>
      var _ :- EmitExpr(refl, value);
      Emit(refl, body)
    case WriteGetterValue(_, _) => Ok(())
    case InvokeSetter(_, value) => EmitExpr(refl, value)
    case InvokeValueProcessor(_, source, destination) =>
      var _ :- EmitExpr(refl, source);
      EmitExpr(refl, destination)
    case CopyComplex(_, _, _, sourceChecked, _, destinationInit, nullValue, init, nested, _) =>
      var _ :- if sourceChecked then EmitExpr(refl, nullValue) else Ok(());
      var _ :- if destinationInit then EmitExpr(refl, init) else Ok(());
      EmitAll(refl, nested)
    case CatchAndWrap(_, body) => Emit(refl, body)
  }

  function EmitAll(refl: Reflection, nodes: seq<Node>): Result<()>
    decreases nodes, 0
  {
    if nodes == [] then Ok(())
    else
      var _ :- Emit(refl, nodes[0]);
      EmitAll(refl, nodes[1..])
  }
}
