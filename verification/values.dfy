/**
  Runtime values, CLR types, exceptions and member chains shared by the
  mapping model.

  Generated mapping code reads and writes members along a chain of field or
  property names starting at a root object (`ReadMembersChain`,
  `WriteMembersChain`).  Objects are modelled as trees keyed by member name,
  so a member chain is a path into the tree.
 */
module Values {

  /** The CLR types the mapper tells apart. */
  datatype Type =
    | Named(name: string)          // any other class or struct
    | NullableOf(underlying: Type) // Nullable<T>
    | ArrayOf(element: Type)       // T[]
    | ListOf(argument: Type)       // List<T>
    | ArrayListType                // System.Collections.ArrayList
    | ObjectType                   // System.Object

  predicate IsNullable(t: Type) {
    t.NullableOf?
  }

  /** A members chain: the member names followed from a root object. */
  type Path = seq<string>

  datatype Value =
    | Null                             // the null reference
    | Prim(n: int)                     // a scalar
    | Obj(fields: map<string, Value>)  // an object; an absent member holds its default, null
    | NoValue                          // a Nullable<T> whose HasValue is false
    | Wrapped(inner: Value)            // a Nullable<T> holding `inner`

  /** Exceptions, thrown by generated code, by the runtime or by user delegates. */
  datatype Exn =
    | UserException(code: nat)         // anything a user delegate or a nested mapper throws
    | NullReference
    | IndexOutOfRange
    | InvalidCast
    | InvalidOperation                 // Nullable<T>.Value of an empty nullable
    | MissingMember(member: string)    // a member read on a value that has no members
    | ConstructorNotFound(parameterTypes: seq<Type>, objectType: Type)
    | EmitMapperException(message: string, inner: Exn, operation: nat)
      // `operation` is the StoredObjects index of the failing mapping operation
    | InvalidMappingOperations         // EmitMapperException("Invalid mapping operations")

  datatype Option<+T> = None | Some(value: T)

  /** Either a value or a thrown exception; usable with `:-`. */
  datatype Result<+T> = Ok(value: T) | Throw(error: Exn) {
    predicate IsFailure() {
      Throw?
    }

    function PropagateFailure<U>(): Result<U>
      requires Throw?
    {
      Throw(error)
    }

    function Extract(): T
      requires Ok?
    {
      value
    }
  }

  /**
    Reflection facts the mapper queries while it is built, and the outcome
    of building the nested mapper for a pair of member types; left abstract.
   */
  datatype Reflection = Reflection(
    isValueType: Type -> bool,                          // Type.IsValueType
    findConstructor: (Type, seq<Type>) -> Option<nat>,  // Type.GetConstructor(parameter types)
    staticConverter: (Type, Type) -> Option<nat>,       // StaticConvertersManager.GetStaticConverter
    mapperFailure: (Type, Type) -> Option<Exn>)         // what ObjectsMapperManager.GetMapperInt throws, if anything

  /** Reads one member of `v`. */
  function ReadMember(v: Value, member: string): (r: Result<Value>)
    ensures r.Ok? <==> v.Obj?
  {
    match v
    case Obj(fields) => Ok(if member in fields then fields[member] else Null)
    case Null => Throw(NullReference)
    case _ => Throw(MissingMember(member))
  }

  /** ReadMembersChain: follows `chain` from `v`; the empty chain reads `v` itself. */
  function ReadChain(v: Value, chain: Path): Result<Value>
    decreases |chain|
  {
    if chain == [] then Ok(v)
    else
      var child :- ReadMember(v, chain[0]);
      ReadChain(child, chain[1..])
  }

  /**
    WriteMembersChain: the object `v` after its member at the end of `chain`
    is set to `x`.  Every object on the way must exist.
   */
  function WriteChain(v: Value, chain: Path, x: Value): Result<Value>
    decreases |chain|
  {
    if chain == [] then Ok(x)
    else
      match v
      case Obj(fields) =>
        var child := if chain[0] in fields then fields[chain[0]] else Null;
        var updated :- WriteChain(child, chain[1..], x);
        Ok(Obj(fields[chain[0] := updated]))
      case Null => Throw(NullReference)
      case _ => Throw(MissingMember(chain[0]))
  }

  /** A written member reads back as the written value. */
  lemma {:induction false} ReadAfterWrite(v: Value, chain: Path, x: Value)
    requires WriteChain(v, chain, x).Ok?
    ensures ReadChain(WriteChain(v, chain, x).value, chain) == Ok(x)
    decreases |chain|
  {
    if chain != [] {
      var fields := v.fields;
      var child := if chain[0] in fields then fields[chain[0]] else Null;
      ReadAfterWrite(child, chain[1..], x);
    }
  }

  /**
    A write leaves every chain that branches off it before its end
    unchanged: other members keep their values.
   */
  lemma {:induction false} ReadOtherAfterWrite(v: Value, chain: Path, x: Value, other: Path, k: nat)
    requires k < |chain| && k < |other| && chain[..k] == other[..k] && chain[k] != other[k]
    requires WriteChain(v, chain, x).Ok?
    ensures ReadChain(WriteChain(v, chain, x).value, other) == ReadChain(v, other)
    decreases k
  {
    var fields := v.fields;
    var child := if chain[0] in fields then fields[chain[0]] else Null;
    if k > 0 {
      assert chain[1..][..k - 1] == chain[..k][1..];
      assert other[1..][..k - 1] == other[..k][1..];
      assert chain[0] == chain[..k][0] == other[0];
      ReadOtherAfterWrite(child, chain[1..], x, other[1..], k - 1);
    }
  }

  /** A write succeeds exactly when every object above the written member exists. */
  lemma {:induction false} WriteSucceeds(v: Value, chain: Path, x: Value)
    requires chain != []
    ensures WriteChain(v, chain, x).Ok? <==>
      (var parent := ReadChain(v, chain[..|chain| - 1]); parent.Ok? && parent.value.Obj?)
    decreases |chain|
  {
    if |chain| > 1 {
      if v.Obj? {
        var fields := v.fields;
        var child := if chain[0] in fields then fields[chain[0]] else Null;
        WriteSucceeds(child, chain[1..], x);
        assert chain[1..][..|chain| - 2] == chain[..|chain| - 1][1..];
      }
    }
  }
}
