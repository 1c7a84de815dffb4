/**
  MapperForCollection: maps a source collection or scalar to an array,
  List<T>, ArrayList or IList, element by element.  The element mappers
  (the sub-mapper for the element types, and the mapper for an element's
  runtime type) are abstract functions that may throw.
 */
module Collections {
  import opened Values

  /** What `from` is at run time. */
  datatype Source =
    | Collection(items: seq<Value>)  // an ICollection, whose Count is |items|
    | Sequence(items: seq<Value>)    // an IEnumerable that is not an ICollection
    | Scalar(obj: Value)             // anything else, null included

  /** Reflection facts and mappers the collection mapper calls. */
  datatype CollectionHost = CollectionHost(
    subMap: Value -> Result<Value>,                // _subMapper.Mapper.Map
    runtimeType: Value -> Type,                    // obj.GetType()
    mapFor: (Type, Type, Value) -> Result<Value>,  // Mapper.GetMapper(from, to, configurator).Map
    isIList: Type -> bool,                         // typeof(IList).IsAssignableFrom
    isGenericIList: Type -> bool)                  // typeof(IList<>).IsAssignableFrom

  /** How each element is mapped. */
  datatype ElementMap =
    | SubMapper    // by the sub-mapper for the element types
    | Shallow      // copied by reference
    | RuntimeType  // null stays null; otherwise by the mapper for (runtime type, runtime type)

  function MapElement(host: CollectionHost, how: ElementMap, v: Value): Result<Value> {
    match how
    case SubMapper => host.subMap(v)
    case Shallow => Ok(v)
    case RuntimeType =>
      if v == Null then Ok(Null) else host.mapFor(host.runtimeType(v), host.runtimeType(v), v)
  }

  /** The elements produced before the first exception, and that exception if one was thrown. */
  datatype Partial = Partial(done: seq<Value>, failure: Option<Exn>)

  /**
    A foreach loop that maps each element in order and stops at the first
    exception: element i of the output is element i of the input mapped,
    and the output is as long as the input unless an element threw.
   */
  function MapEach(host: CollectionHost, how: ElementMap, items: seq<Value>): (p: Partial)
    ensures |p.done| <= |items|
    ensures forall i :: 0 <= i < |p.done| ==> MapElement(host, how, items[i]) == Ok(p.done[i])
    ensures p.failure.None? <==> |p.done| == |items|
    ensures p.failure.Some? ==> MapElement(host, how, items[|p.done|]) == Throw(p.failure.value)
    decreases |items|
  {
    if items == [] then Partial([], None)
    else
      var prefix := MapEach(host, how, items[..|items| - 1]);
      if prefix.failure.Some? then prefix
      else
        match MapElement(host, how, items[|items| - 1])
        case Ok(v) => Partial(prefix.done + [v], None)
        case Throw(e) => Partial(prefix.done, Some(e))
  }

  /** The loop's result when nothing else observes its partial output. */
  function Finish(p: Partial): (r: Result<seq<Value>>)
    ensures r.Ok? <==> p.failure.None?
  {
    if p.failure.Some? then Throw(p.failure.value) else Ok(p.done)
  }

  /** One more iteration of the loop. */
  lemma MapEachStep(host: CollectionHost, how: ElementMap, items: seq<Value>, n: nat)
    requires n < |items|
    ensures MapEach(host, how, items[..n + 1]) ==
      (var p := MapEach(host, how, items[..n]);
       if p.failure.Some? then p
       else match MapElement(host, how, items[n])
         case Ok(v) => Partial(p.done + [v], None)
         case Throw(e) => Partial(p.done, Some(e)))
  {
    assert items[..n + 1][..n] == items[..n];
  }

  /** An iteration that maps its element without an exception appends the mapped value. */
  lemma MapEachGrows(host: CollectionHost, how: ElementMap, items: seq<Value>, n: nat, done: seq<Value>, v: Value)
    requires n < |items| && MapEach(host, how, items[..n]) == Partial(done, None)
    requires MapElement(host, how, items[n]) == Ok(v)
    ensures MapEach(host, how, items[..n + 1]) == Partial(done + [v], None)
  {
    MapEachStep(host, how, items, n);
  }

  /** Once an element has thrown, the later elements change nothing. */
  lemma {:induction false} FailureIsFinal(host: CollectionHost, how: ElementMap, items: seq<Value>, n: nat)
    requires n <= |items| && MapEach(host, how, items[..n]).failure.Some?
    ensures MapEach(host, how, items) == MapEach(host, how, items[..n])
    decreases |items|
  {
    if n == |items| {
      assert items[..n] == items;
    } else {
      var front := items[..|items| - 1];
      assert front[..n] == items[..n];
      FailureIsFinal(host, how, front, n);
    }
  }

  /** A shallow copy is the input itself, and never throws. */
  lemma {:induction false} ShallowCopiesAll(host: CollectionHost, items: seq<Value>)
    ensures MapEach(host, Shallow, items) == Partial(items, None)
    decreases |items|
  {
    if items != [] {
      var front := items[..|items| - 1];
      ShallowCopiesAll(host, front);
      assert front + [items[|items| - 1]] == items;
    }
  }

  /** Mapping by runtime type keeps every null element null, in place. */
  lemma RuntimeTypeKeepsNulls(host: CollectionHost, items: seq<Value>, i: nat)
    requires i < |MapEach(host, RuntimeType, items).done| && items[i] == Null
    ensures MapEach(host, RuntimeType, items).done[i] == Null
  {
  }

  /** A scalar mapped as a one-element sequence: a one-element result holding the mapped scalar. */
  lemma ScalarIsOneElement(host: CollectionHost, how: ElementMap, x: Value)
    ensures Finish(MapEach(host, how, [x])) ==
      match MapElement(host, how, x)
      case Ok(v) => Ok([v])
      case Throw(e) => Throw(e)
  {
    assert [x][..0] == [];
    assert MapEach(host, how, [x][..0]) == Partial([], None);
    match MapElement(host, how, x)
    case Ok(v) => assert [] + [v] == [v];
    case Throw(_) =>
  }

  /** The elements CopyToIList enumerates: a scalar is enumerated as itself alone. */
  function Elements(from: Source): (s: seq<Value>)
    ensures from.Scalar? ==> s == [from.obj]
    ensures !from.Scalar? ==> s == from.items
  {
    if from.Scalar? then [from.obj] else from.items
  }

  // ---------------------------------------------------------------- types

  /** ExtractElementType: an array's element type, object for ArrayList, T for List<T>, else null. */
  function ExtractElementType(t: Type): (r: Option<Type>)
    ensures t.ArrayOf? ==> r == Some(t.element)
    ensures t == ArrayListType ==> r == Some(ObjectType)
    ensures t.ListOf? ==> r == Some(t.argument)
    ensures r.None? <==> !(t.ArrayOf? || t == ArrayListType || t.ListOf?)
  {
    match t
    case ArrayOf(e) => Some(e)
    case ArrayListType => Some(ObjectType)
    case ListOf(a) => Some(a)
    case _ => None
  }

  /** GetSubMapperTypeFrom: the element type, or the type itself when it is not a known collection. */
  function GetSubMapperTypeFrom(t: Type): (r: Type)
    ensures ExtractElementType(t).Some? ==> r == ExtractElementType(t).value
    ensures ExtractElementType(t).None? ==> r == t
  {
    var e := ExtractElementType(t);
    if e.None? then t else e.value
  }

  /** GetSubMapperTypeTo: the element type, or null. */
  function GetSubMapperTypeTo(t: Type): (r: Option<Type>)
    ensures r == ExtractElementType(t)
  {
    ExtractElementType(t)
  }

  /** The branch of MapImpl a destination type takes. */
  datatype Route = ToArray | ToList | ToArrayList | ToIList | Unsupported

  /** MapImpl's tests, in order: array, List<T>, ArrayList, then IList-assignable; else null. */
  function RouteOf(host: CollectionHost, t: Type): (r: Route)
    ensures r == ToArray <==> t.ArrayOf?
    ensures r == ToList <==> t.ListOf?
    ensures r == ToArrayList <==> t == ArrayListType
    ensures r == ToIList <==> !(t.ArrayOf? || t.ListOf? || t == ArrayListType) && host.isIList(t)
  {
    if t.ArrayOf? then ToArray
    else if t.ListOf? then ToList
    else if t == ArrayListType then ToArrayList
    else if host.isIList(t) then ToIList
    else Unsupported
  }

  /** IsSupportedType: array, List<T>, ArrayList, or assignable to IList or to IList<T>. */
  function IsSupportedType(host: CollectionHost, t: Type): bool {
    t.ArrayOf? || t.ListOf? || t == ArrayListType || host.isIList(t) || host.isGenericIList(t)
  }

  /**
    Every type MapImpl handles is supported; the converse fails only for a
    type assignable to IList<T> but not to IList, which MapImpl maps to null.
   */
  lemma SupportedTypes(host: CollectionHost, t: Type)
    ensures RouteOf(host, t) != Unsupported ==> IsSupportedType(host, t)
    ensures IsSupportedType(host, t) && RouteOf(host, t) == Unsupported <==>
      !(t.ArrayOf? || t.ListOf? || t == ArrayListType) && !host.isIList(t) && host.isGenericIList(t)
  {
  }

  /** The routes that build a new collection are exactly the types with an element type. */
  lemma ElementTypeForBuiltCollections(host: CollectionHost, t: Type)
    ensures RouteOf(host, t) in {ToArray, ToList, ToArrayList} <==> ExtractElementType(t).Some?
  {
  }

  // ---------------------------------------------------------------- IList

  /** A caller-supplied IList, appended to in place. */
  class ListObject {
    var items: seq<Value>

    /** ObjectFactory.CreateInstance<IList>(TypeTo): a new, empty list. */
    constructor ()
      ensures items == []
    {
      items := [];
    }

    /** IList.Add. */
    method Add(v: Value)
      modifies this
      ensures items == old(items) + [v]
    {
      items := items + [v];
    }
  }

  /** The result of MapImpl. */
  datatype Outcome =
    | ArrayOut(buffer: array<Value>)
    | ListOut(items: seq<Value>)
    | ArrayListOut(items: seq<Value>)
    | IListOut(list: ListObject, failure: Option<Exn>)
      // the list appended to; `failure` is the exception thrown after the elements before it were added
    | NullOut
    | Failed(error: Exn)

  /** What an array result holds, or the exception thrown instead. */
  function ArrayContents(r: Result<array<Value>>): Result<seq<Value>>
    reads if r.Ok? then {r.value} else {}
  {
    if r.Ok? then Ok(r.value[..]) else Throw(r.error)
  }

  /** What a result other than an IList holds, or the exception thrown instead. */
  function Contents(r: Outcome): Result<seq<Value>>
    reads if r.ArrayOut? then {r.buffer} else {}
  {
    match r
    case ArrayOut(a) => Ok(a[..])
    case ListOut(items) => Ok(items)
    case ArrayListOut(items) => Ok(items)
    case Failed(e) => Throw(e)
    case _ => Ok([])
  }

  /**
    The list CopyToIList appends to: `to`, else what TargetConstructor
    returned, else a new one.  `constructed` is what calling TargetConstructor
    yields: None when there is none, else the object or the exception.
   */
  function Resolve(to: ListObject?, constructed: Option<Result<ListObject?>>): ListObject? {
    if to == null && constructed.Some? && constructed.value.Ok? then constructed.value.value else to
  }

  /** The exception TargetConstructor throws when it is called, for a null `to`. */
  function ConstructorFailure(to: ListObject?, constructed: Option<Result<ListObject?>>): Option<Exn> {
    if to == null && constructed.Some? && constructed.value.Throw? then Some(constructed.value.error) else None
  }

  class MapperForCollection {
    const typeTo: Type
    const shallowCopy: bool
    /** RootOperation: None when null, else its ShallowCopy flag. */
    const rootOperation: Option<bool>
    const host: CollectionHost

    /** CreateInstance, without the dynamic subclass it defines. */
    constructor (typeTo: Type, shallowCopy: bool, rootOperation: Option<bool>, host: CollectionHost)
      ensures this.typeTo == typeTo && this.shallowCopy == shallowCopy
      ensures this.rootOperation == rootOperation && this.host == host
    {
      this.typeTo := typeTo;
      this.shallowCopy := shallowCopy;
      this.rootOperation := rootOperation;
      this.host := host;
    }

    /** The element mapping of CopyToArrayList. */
    function ArrayListMap(): ElementMap {
      if shallowCopy then Shallow else RuntimeType
    }

    /** The element mapping of CopyToIList: by reference when there is no root operation or it is shallow. */
    function IListMap(): ElementMap {
      if rootOperation.None? || rootOperation.value then Shallow else RuntimeType
    }

    /** CopyToList<T>: a new list holding every element mapped by the sub-mapper, in order. */
    method CopyToList(from: seq<Value>) returns (r: Result<seq<Value>>)
      ensures r == Finish(MapEach(host, SubMapper, from))
    {
      var result := [];
      var n := 0;
      while n < |from|
        invariant 0 <= n <= |from|
        invariant MapEach(host, SubMapper, from[..n]) == Partial(result, None)
      {
        MapEachStep(host, SubMapper, from, n);
        var mapped := host.subMap(from[n]);
        if mapped.Throw? {
          FailureIsFinal(host, SubMapper, from, n + 1);
          return Throw(mapped.error);
        }
        result := result + [mapped.value];
        n := n + 1;
      }
      assert from[..n] == from;
      return Ok(result);
    }

    /** CopyToListScalar<T>: a one-element list holding the mapped scalar. */
    method CopyToListScalar(from: Value) returns (r: Result<seq<Value>>)
      ensures r == Finish(MapEach(host, SubMapper, [from]))
    {
      ScalarIsOneElement(host, SubMapper, from);
      var mapped := host.subMap(from);
      if mapped.Throw? {
        return Throw(mapped.error);
      }
      return Ok([mapped.value]);
    }

    /** CopyScalarToArray: a one-element array holding the mapped scalar. */
    method CopyScalarToArray(scalar: Value) returns (r: Result<array<Value>>)
      ensures ArrayContents(r) == Finish(MapEach(host, SubMapper, [scalar]))
    {
      ScalarIsOneElement(host, SubMapper, scalar);
      var result := new Value[1](_ => Null);
      var mapped := host.subMap(scalar);
      if mapped.Throw? {
        return Throw(mapped.error);
      }
      result[0] := mapped.value;
      assert result[..] == [mapped.value];
      return Ok(result);
    }

    /**
      CopyToArray: an ICollection of Count n gives an array of length n
      whose element i is element i mapped.  Any other enumerable is buffered
      and its elements are copied into the array without being mapped.
     */
    method CopyToArray(from: Source) returns (r: Result<array<Value>>)
      requires !from.Scalar?
      ensures from.Collection? ==> ArrayContents(r) == Finish(MapEach(host, SubMapper, from.items))
      ensures from.Sequence? ==> ArrayContents(r) == Ok(from.items)
    {
      var items := from.items;
      if from.Collection? {
        var result := new Value[|items|](_ => Null);
        var idx := 0;
        while idx < |items|
          invariant 0 <= idx <= |items|
          invariant MapEach(host, SubMapper, items[..idx]) == Partial(result[..idx], None)
        {
          MapEachStep(host, SubMapper, items, idx);
          var mapped := host.subMap(items[idx]);
          if mapped.Throw? {
            FailureIsFinal(host, SubMapper, items, idx + 1);
            return Throw(mapped.error);
          }
          result[idx] := mapped.value;
          assert result[..idx + 1] == result[..idx] + [mapped.value];
          idx := idx + 1;
        }
        assert items[..idx] == items;
        assert result[..] == result[..idx];
        return Ok(result);
      }
      var buffer := [];
      var n := 0;
      while n < |items|
        invariant 0 <= n <= |items|
        invariant buffer == items[..n]
      {
        buffer := buffer + [items[n]];
        n := n + 1;
      }
      assert buffer == items;
      var result := new Value[|buffer|](i requires 0 <= i < |buffer| => buffer[i]);
      assert forall i :: 0 <= i < |buffer| ==> result[i] == buffer[i];
      assert result[..] == buffer;
      return Ok(result);
    }

    /** The shallow branch of CopyToArrayList: an ICollection is copied whole, any other enumerable element by element. */
    method ShallowArrayList(from: Source) returns (res: seq<Value>)
      requires !from.Scalar?
      ensures res == from.items
    {
      if from.Collection? {
        return from.items;
      }
      res := [];
      var n := 0;
      while n < |from.items|
        invariant 0 <= n <= |from.items|
        invariant res == from.items[..n]
      {
        res := res + [from.items[n]];
        n := n + 1;
      }
    }

    /**
      CopyToArrayList: under ShallowCopy the elements themselves; otherwise
      null elements stay null and every other element is mapped by the
      mapper for its runtime type.
     */
    method CopyToArrayList(from: Source) returns (r: Result<seq<Value>>)
      requires !from.Scalar?
      ensures r == Finish(MapEach(host, ArrayListMap(), from.items))
      ensures shallowCopy ==> r == Ok(from.items)
    {
      var items := from.items;
      if shallowCopy {
        ShallowCopiesAll(host, items);
        var res := ShallowArrayList(from);
        return Ok(res);
      }
      var result := [];
      var n := 0;
      while n < |items|
        invariant 0 <= n <= |items|
        invariant MapEach(host, RuntimeType, items[..n]) == Partial(result, None)
      {
        MapEachStep(host, RuntimeType, items, n);
        var obj := items[n];
        if obj == Null {
          result := result + [Null];
        } else {
          var t := host.runtimeType(obj);
          var mapped := host.mapFor(t, t, obj);
          if mapped.Throw? {
            FailureIsFinal(host, RuntimeType, items, n + 1);
            return Throw(mapped.error);
          }
          result := result + [mapped.value];
        }
        n := n + 1;
      }
      assert items[..n] == items;
      return Ok(result);
    }

    /**
      CopyToArrayListScalar: a one-element ArrayList.  Unlike the enumerable
      case, a null scalar is not kept as null when copying deeply: asking it
      for its runtime type throws.
     */
    method CopyToArrayListScalar(from: Value) returns (r: Result<seq<Value>>)
      ensures shallowCopy ==> r == Ok([from])
      ensures !shallowCopy && from == Null ==> r == Throw(NullReference)
      ensures !shallowCopy && from != Null ==> r == Finish(MapEach(host, RuntimeType, [from]))
    {
      if shallowCopy {
        return Ok([from]);
      }
      if from == Null {
        return Throw(NullReference);
      }
      ScalarIsOneElement(host, RuntimeType, from);
      var t := host.runtimeType(from);
      var mapped := host.mapFor(t, t, from);
      if mapped.Throw? {
        return Throw(mapped.error);
      }
      return Ok([mapped.value]);
    }

    /**
      CopyToIList: appends every element of `from` to `iList`, or to a new
      list when it is null, and never touches the elements already there.
      An exception leaves the elements appended before it in the list.
     */
    method CopyToIList(iList: ListObject?, from: Source) returns (list: ListObject, failure: Option<Exn>)
      modifies iList
      ensures iList != null ==> list == iList
      ensures iList == null ==> fresh(list)
      ensures var p := MapEach(host, IListMap(), Elements(from));
        && list.items == (if iList != null then old(iList.items) else []) + p.done
        && failure == p.failure
    {
      if iList == null {
        list := new ListObject();
      } else {
        list := iList;
      }
      failure := AddAll(list, Elements(from));
    }

    /** The foreach loop of CopyToIList: each element, mapped, is added to `list` until one throws. */
    method AddAll(list: ListObject, items: seq<Value>) returns (failure: Option<Exn>)
      modifies list
      ensures var p := MapEach(host, IListMap(), items);
        list.items == old(list.items) + p.done && failure == p.failure
    {
      ghost var added := [];
      var how := IListMap();
      var n := 0;
      while n < |items|
        invariant 0 <= n <= |items|
        invariant list.items == old(list.items) + added
        invariant MapEach(host, how, items[..n]) == Partial(added, None)
      {
        var obj := items[n];
        // a null element, or any element when copying by reference, is added as it is
        var value := obj;
        if obj != Null && !(rootOperation.None? || rootOperation.value) {
          var t := host.runtimeType(obj);
          var mapped := host.mapFor(t, t, obj);
          if mapped.Throw? {
            MapEachStep(host, how, items, n);
            FailureIsFinal(host, how, items, n + 1);
            return Some(mapped.error);
          }
          value := mapped.value;
        }
        MapEachGrows(host, how, items, n, added, value);
        list.Add(value);
        added := added + [value];
        n := n + 1;
      }
      assert items[..n] == items;
      return None;
    }
  
    /** What an array destination receives: mapped elements, except that a plain enumerable is copied as is. */
    function ArrayExpected(from: Source): Result<seq<Value>> {
      if from.Sequence? then Ok(from.items) else Finish(MapEach(host, SubMapper, Elements(from)))
    }

    /** What an ArrayList destination receives; a null scalar copied deeply throws. */
    function ArrayListExpected(from: Source): Result<seq<Value>> {
      if !shallowCopy && from == Scalar(Null) then Throw(NullReference)
      else Finish(MapEach(host, ArrayListMap(), Elements(from)))
    }

    /**
      The result of mapping `from` to `typeTo`, where `target` is the IList
      an IList destination is appended to (null: a new one) and `prior` its
      elements beforehand.
     */
    ghost predicate Mapped(from: Source, target: ListObject?, prior: seq<Value>, r: Outcome)
      reads if r.ArrayOut? then {r.buffer} else {}, if r.IListOut? then {r.list} else {}
    {
      match RouteOf(host, typeTo)
      case ToArray => (r.ArrayOut? || r.Failed?) && Contents(r) == ArrayExpected(from)
      case ToList => (r.ListOut? || r.Failed?) && Contents(r) == Finish(MapEach(host, SubMapper, Elements(from)))
      case ToArrayList => (r.ArrayListOut? || r.Failed?) && Contents(r) == ArrayListExpected(from)
      case ToIList =>
        && r.IListOut?
        && (target != null ==> r.list == target)
        && var p := MapEach(host, IListMap(), Elements(from));
           r.list.items == prior + p.done && r.failure == p.failure
      case Unsupported => r == NullOut
    }

    /**
      MapImpl: a null `to` is first replaced by what TargetConstructor
      returns, and an exception it throws ends the mapping; then the
      destination type picks the copy routine.
     */
    method MapImpl(from: Source, to: ListObject?, constructed: Option<Result<ListObject?>>) returns (r: Outcome)
      modifies Resolve(to, constructed)
      ensures ConstructorFailure(to, constructed).Some? ==> r == Failed(ConstructorFailure(to, constructed).value)
      ensures ConstructorFailure(to, constructed).None? ==>
        var target := Resolve(to, constructed);
        Mapped(from, target, if target != null then old(target.items) else [], r)
      ensures Resolve(to, constructed) == null && r.IListOut? ==> fresh(r.list)
    {
      if to == null && constructed.Some? && constructed.value.Throw? {
        return Failed(constructed.value.error);
      }
      r := CopyTo(from, Resolve(to, constructed));
    }

    /** The routing of MapImpl once the destination is settled: the destination type picks the copy routine. */
    method CopyTo(from: Source, target: ListObject?) returns (r: Outcome)
      modifies target
      ensures Mapped(from, target, if target != null then old(target.items) else [], r)
      ensures target == null && r.IListOut? ==> fresh(r.list)
    {
      if typeTo.ArrayOf? {
        var a;
        if from.Scalar? {
          a := CopyScalarToArray(from.obj);
        } else {
          a := CopyToArray(from);
        }
        return if a.Ok? then ArrayOut(a.value) else Failed(a.error);
      }
      if typeTo.ListOf? {
        var l;
        if from.Scalar? {
          l := CopyToListScalar(from.obj);
        } else {
          l := CopyToList(from.items);
        }
        return if l.Ok? then ListOut(l.value) else Failed(l.error);
      }
      if typeTo == ArrayListType {
        var l;
        if from.Scalar? {
          l := CopyToArrayListScalar(from.obj);
          if shallowCopy {
            ShallowCopiesAll(host, [from.obj]);
          }
        } else {
          l := CopyToArrayList(from);
        }
        return if l.Ok? then ArrayListOut(l.value) else Failed(l.error);
      }
      if host.isIList(typeTo) {
        var list, failure := CopyToIList(target, from);
        return IListOut(list, failure);
      }
      return NullOut;
    }

    /** Map: maps with a null destination, whatever `to` the caller passes. */
    method Map(from: Source, to: ListObject?, constructed: Option<Result<ListObject?>>) returns (r: Outcome)
      modifies Resolve(null, constructed)
      ensures ConstructorFailure(null, constructed).Some? ==> r == Failed(ConstructorFailure(null, constructed).value)
      ensures ConstructorFailure(null, constructed).None? ==>
        var target := Resolve(null, constructed);
        Mapped(from, target, if target != null then old(target.items) else [], r)
      ensures Resolve(null, constructed) == null && r.IListOut? ==> fresh(r.list)
    {
      r := MapImpl(from, null, constructed);
    }
  }
}
