/**
  AstNewObject: the AST node that constructs an object of `ObjectType`,
  optionally from constructor parameters that are themselves AST nodes.
  Compiling it appends instructions to the method body; the model keeps the
  instruction stream abstract, as a list of stack instructions.
 */
module NewObjects {
  import opened Values

  /** An AST node that leaves one value on the evaluation stack. */
  datatype Node =
    | Leaf(itemType: Type, id: nat)   // any other node, e.g. a local or a member read
    | NewObject(objectType: Type, constructorParams: seq<Node>)
      // a null ConstructorParams is compiled as an empty one, so both are []

  /** IAstStackItem.ItemType: the type of the value a node leaves on the stack. */
  function ItemType(n: Node): (t: Type)
    ensures n.NewObject? ==> t == n.objectType
    ensures n.Leaf? ==> t == n.itemType
  {
    match n
    case Leaf(t, _) => t
    case NewObject(t, _) => t
  }

  /** The instructions compilation appends. */
  datatype Instruction =
    | Load(id: nat)                                    // a leaf's code
    | LoadDefault(t: Type)                             // declare a local, initialise it, read it
    | NewObj(t: Type, ctor: nat, arity: nat)           // newobj with constructor `ctor` of `arity` parameters
    | NewNullable(t: Type)                             // newobj Nullable<T>(T)

  function ParamTypes(ps: seq<Node>): (ts: seq<Type>)
    ensures |ts| == |ps| && forall i :: 0 <= i < |ps| ==> ts[i] == ItemType(ps[i])
  {
    if ps == [] then [] else [ItemType(ps[0])] + ParamTypes(ps[1..])
  }

  /**
    AstNewObject.Compile as written.  A Nullable<T> target wraps either a
    default-initialised T (no parameters) or the first parameter alone.
    Any other target compiles every parameter in order, then looks up the
    constructor whose parameter types are exactly the parameters' item types:
    a found constructor is called; otherwise a value type yields its
    default value and a reference type fails to compile.
   */
  function Compile(refl: Reflection, n: Node): (r: Result<seq<Instruction>>)
    decreases n, 1
  {
    match n
    case Leaf(_, id) => Ok([Load(id)])
    case NewObject(t, ps) =>
      if IsNullable(t) then
        if ps == [] then Ok([LoadDefault(t.underlying), NewNullable(t)])
        else
          var first :- Compile(refl, ps[0]);
          Ok(first + [NewNullable(t)])
      else
        var pushed :- CompileAll(refl, ps);
        match refl.findConstructor(t, ParamTypes(ps))
        case Some(c) => Ok(pushed + [NewObj(t, c, |ps|)])
        case None =>
          if refl.isValueType(t) then Ok(pushed + [LoadDefault(t)])
          else Throw(ConstructorNotFound(ParamTypes(ps), t))
  }

  /** `foreach (var p in ConstructorParams) p.Compile(context)`. */
  function CompileAll(refl: Reflection, ps: seq<Node>): Result<seq<Instruction>>
    decreases ps, 0
  {
    if ps == [] then Ok([])
    else
      var head :- Compile(refl, ps[0]);
      var rest :- CompileAll(refl, ps[1..]);
      Ok(head + rest)
  }

  /**
    The constructor decision for a non-nullable target once its parameters
    compiled: the exact-signature constructor, else the value-type default,
    else the compile error naming the parameter types and the type.
   */
  lemma SelectsConstructor(refl: Reflection, t: Type, ps: seq<Node>, pushed: seq<Instruction>)
    requires !IsNullable(t) && CompileAll(refl, ps) == Ok(pushed)
    ensures var r := Compile(refl, NewObject(t, ps));
      && (refl.findConstructor(t, ParamTypes(ps)).Some? ==>
            r == Ok(pushed + [NewObj(t, refl.findConstructor(t, ParamTypes(ps)).value, |ps|)]))
      && (refl.findConstructor(t, ParamTypes(ps)).None? && refl.isValueType(t) ==>
            r == Ok(pushed + [LoadDefault(t)]))
      && (r.Throw? <==> refl.findConstructor(t, ParamTypes(ps)).None? && !refl.isValueType(t))
      && (r.Throw? ==> r.error == ConstructorNotFound(ParamTypes(ps), t))
  {
  }

  /** Without parameters a non-nullable target calls the constructor for no parameters, if there is one. */
  lemma NoParamsUsesDefaultConstructor(refl: Reflection, t: Type)
    requires !IsNullable(t) && refl.findConstructor(t, []).Some?
    ensures Compile(refl, NewObject(t, [])) == Ok([NewObj(t, refl.findConstructor(t, []).value, 0)])
  {
    assert CompileAll(refl, []) == Ok([]);
    assert [] + [NewObj(t, refl.findConstructor(t, []).value, 0)] == [NewObj(t, refl.findConstructor(t, []).value, 0)];
  }

  /** A nullable target never fails for want of a constructor, and ignores all parameters after the first. */
  lemma NullableUsesFirstParam(refl: Reflection, t: Type, ps: seq<Node>)
    requires IsNullable(t) && ps != []
    ensures Compile(refl, NewObject(t, ps)) == Compile(refl, NewObject(t, ps[..1]))
    ensures Compile(refl, ps[0]).Ok? ==> Compile(refl, NewObject(t, ps)).Ok?
  {
  }

  /** The stack depth after one instruction, or None when it pops more than the stack holds. */
  function Step(d: nat, i: Instruction): Option<nat> {
    match i
    case Load(_) => Some(d + 1)
    case LoadDefault(_) => Some(d + 1)
    case NewObj(_, _, arity) => if arity <= d then Some(d - arity + 1) else None
    case NewNullable(_) => if 1 <= d then Some(d) else None
  }

  /**
    Evaluation-stack depth after running `code` from depth `d`, or None on
    underflow.
   */
  function Depth(d: nat, code: seq<Instruction>): Option<nat>
    decreases |code|
  {
    if code == [] then Some(d)
    else
      var d' := Step(d, code[0]);
      if d'.None? then None else Depth(d'.value, code[1..])
  }

  lemma DepthOne(d: nat, i: Instruction)
    ensures Depth(d, [i]) == Step(d, i)
  {
    assert [i][1..] == [];
  }

  lemma {:induction false} DepthAppend(d: nat, front: seq<Instruction>, back: seq<Instruction>)
    ensures Depth(d, front + back) ==
      (var m := Depth(d, front); if m.None? then None else Depth(m.value, back))
    decreases |front|
  {
    if front != [] {
      assert (front + back)[0] == front[0];
      assert (front + back)[1..] == front[1..] + back;
      var d' := Step(d, front[0]);
      if d'.Some? {
        DepthAppend(d'.value, front[1..], back);
      }
    } else {
      assert front + back == back;
    }
  }

  /**
    A node's code should push exactly one value.  With parameters and no
    matching constructor on a value type, the code as written pushes the
    parameters and then the default value, leaving them on the stack.
   */
  lemma ValueTypeFallbackLeavesParameters(refl: Reflection, t: Type, p: Type)
    requires !IsNullable(t) && refl.findConstructor(t, [p]).None? && refl.isValueType(t)
    ensures Compile(refl, NewObject(t, [Leaf(p, 0)])) == Ok([Load(0), LoadDefault(t)])
    ensures Depth(0, [Load(0), LoadDefault(t)]) == Some(2)
  {
    assert ParamTypes([Leaf(p, 0)]) == [p];
    assert CompileAll(refl, [Leaf(p, 0)]) == Ok([Load(0)]) by {
      assert [Leaf(p, 0)][1..] == [];
      assert [Load(0)] + [] == [Load(0)];
    }
    assert [Load(0)] + [LoadDefault(t)] == [Load(0), LoadDefault(t)];
    DepthAppend(0, [Load(0)], [LoadDefault(t)]);
    DepthOne(0, Load(0));
    DepthOne(1, LoadDefault(t));
  }

  /**
    Compile with the value-type fallback corrected: when no constructor
    matches a value type, no parameter is compiled and the default value is
    the node's only contribution.  Every other case is as in Compile.
   */
  function CompileFixed(refl: Reflection, n: Node): (r: Result<seq<Instruction>>)
    decreases n, 1
  {
    match n
    case Leaf(_, id) => Ok([Load(id)])
    case NewObject(t, ps) =>
      if IsNullable(t) then
        if ps == [] then Ok([LoadDefault(t.underlying), NewNullable(t)])
        else
          var first :- CompileFixed(refl, ps[0]);
          Ok(first + [NewNullable(t)])
      else
        match refl.findConstructor(t, ParamTypes(ps))
        case Some(c) =>
          var pushed :- CompileAllFixed(refl, ps);
          Ok(pushed + [NewObj(t, c, |ps|)])
        case None =>
          if refl.isValueType(t) then Ok([LoadDefault(t)])
          else
            var _ :- CompileAllFixed(refl, ps);
            Throw(ConstructorNotFound(ParamTypes(ps), t))
  }

  function CompileAllFixed(refl: Reflection, ps: seq<Node>): Result<seq<Instruction>>
    decreases ps, 0
  {
    if ps == [] then Ok([])
    else
      var head :- CompileFixed(refl, ps[0]);
      var rest :- CompileAllFixed(refl, ps[1..]);
      Ok(head + rest)
  }

  /** The corrected code of a node pushes exactly one value, from any stack depth. */
  lemma {:induction false} FixedPushesOneValue(refl: Reflection, n: Node, d: nat)
    requires CompileFixed(refl, n).Ok?
    ensures Depth(d, CompileFixed(refl, n).value) == Some(d + 1)
    decreases n, 1
  {
    match n
    case Leaf(_, id) =>
      DepthOne(d, Load(id));
    case NewObject(t, ps) =>
      if IsNullable(t) {
        if ps != [] {
          var first := CompileFixed(refl, ps[0]).value;
          FixedPushesOneValue(refl, ps[0], d);
          DepthAppend(d, first, [NewNullable(t)]);
          DepthOne(d + 1, NewNullable(t));
        } else {
          DepthAppend(d, [LoadDefault(t.underlying)], [NewNullable(t)]);
          DepthOne(d, LoadDefault(t.underlying));
          DepthOne(d + 1, NewNullable(t));
        }
      } else if refl.findConstructor(t, ParamTypes(ps)).Some? {
        var pushed := CompileAllFixed(refl, ps).value;
        var c := refl.findConstructor(t, ParamTypes(ps)).value;
        FixedPushesEach(refl, ps, d);
        DepthAppend(d, pushed, [NewObj(t, c, |ps|)]);
        DepthOne(d + |ps|, NewObj(t, c, |ps|));
      } else {
        DepthOne(d, LoadDefault(t));
      }
  }

  /** The corrected code of a parameter list pushes one value per parameter. */
  lemma {:induction false} FixedPushesEach(refl: Reflection, ps: seq<Node>, d: nat)
    requires CompileAllFixed(refl, ps).Ok?
    ensures Depth(d, CompileAllFixed(refl, ps).value) == Some(d + |ps|)
    decreases ps, 0
  {
    if ps != [] {
      var head := CompileFixed(refl, ps[0]).value;
      var rest := CompileAllFixed(refl, ps[1..]).value;
      FixedPushesOneValue(refl, ps[0], d);
      FixedPushesEach(refl, ps[1..], d + 1);
      DepthAppend(d, head, rest);
    }
  }

  /**
    Where a constructor matches the parameters of a type other than
    Nullable<T>, the correction changes nothing: both compile the
    parameters and call that constructor.
   */
  lemma {:induction false} FixedAgreesOffFallback(refl: Reflection, t: Type, ps: seq<Node>)
    requires !IsNullable(t) && refl.findConstructor(t, ParamTypes(ps)).Some?
    requires forall i :: 0 <= i < |ps| ==> Compile(refl, ps[i]) == CompileFixed(refl, ps[i])
    ensures Compile(refl, NewObject(t, ps)) == CompileFixed(refl, NewObject(t, ps))
  {
    AllAgree(refl, ps);
  }

  lemma {:induction false} AllAgree(refl: Reflection, ps: seq<Node>)
    requires forall i :: 0 <= i < |ps| ==> Compile(refl, ps[i]) == CompileFixed(refl, ps[i])
    ensures CompileAll(refl, ps) == CompileAllFixed(refl, ps)
    decreases |ps|
  {
    if ps != [] {
      assert forall i :: 0 <= i < |ps[1..]| ==> ps[1..][i] == ps[i + 1];
      AllAgree(refl, ps[1..]);
    }
  }
}
