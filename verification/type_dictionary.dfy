/**
  TypeDictionary<T>: values keyed by tuples of types, kept in insertion
  order.  A lookup returns the first entry, in that order, whose every type
  is "general" for the corresponding type of the query.
 */
module TypeDictionaries {
  import opened Values

  /**
    IsGeneralType(generalType, type): true when the two types are the same;
    otherwise reflection decides (generic type definitions, interfaces,
    IsAssignableFrom), which the relation `beyond` stands for.
   */
  predicate IsGeneralType(beyond: (Type, Type) -> bool, generalType: Type, t: Type) {
    generalType == t || beyond(generalType, t)
  }

  /** A type is always general for itself, whatever reflection says. */
  lemma GeneralTypeReflexive(beyond: (Type, Type) -> bool, t: Type)
    ensures IsGeneralType(beyond, t, t)
  {
  }

  datatype ListElement<V> = ListElement(types: seq<Type>, value: Option<V>)

  /** The outcome of `element.Equals(other)`: equal, unequal, or an IndexOutOfRangeException. */
  datatype Equality = Equal | Unequal | OutOfRange

  /**
    ListElement.Equals compares the element's types position by position
    against `other`, from index 0, and stops at the first difference; an index
    past the end of `other` throws.  So it is a prefix test, not equality.
   */
  function ElementEquals(types: seq<Type>, other: seq<Type>): (r: Equality)
    ensures r == Equal <==> |types| <= |other| && types == other[..|types|]
    ensures r == OutOfRange <==> |other| < |types| && other == types[..|other|]
  {
    if types == [] then Equal
    else if other == [] then OutOfRange
    else if types[0] != other[0] then Unequal
    else
      var r := ElementEquals(types[1..], other[1..]);
      assert types == [types[0]] + types[1..];
      assert other == [other[0]] + other[1..];
      r
  }

  /** Keys of one length compare by plain positional equality and never throw. */
  lemma SameLengthEquality(types: seq<Type>, other: seq<Type>)
    requires |types| == |other|
    ensures ElementEquals(types, other) == Equal <==> types == other
    ensures ElementEquals(types, other) != OutOfRange
  {
  }

  /**
    List<ListElement>.IndexOf(item), as used by Contains and Remove: scans
    from `from` and asks each element whether it equals the item.
   */
  function IndexOfEqual<V>(elements: seq<ListElement<V>>, types: seq<Type>, from: nat): (r: Result<Option<nat>>)
    requires from <= |elements|
    ensures r == Ok(None) ==>
      forall k :: from <= k < |elements| ==> ElementEquals(elements[k].types, types) == Unequal
    ensures r.Ok? && r.value.Some? ==>
      && from <= r.value.value < |elements|
      && ElementEquals(elements[r.value.value].types, types) == Equal
      && forall k :: from <= k < r.value.value ==> ElementEquals(elements[k].types, types) == Unequal
    ensures r.Throw? ==>
      && r.error == IndexOutOfRange
      && exists i :: from <= i < |elements| && ElementEquals(elements[i].types, types) == OutOfRange
    decreases |elements| - from
  {
    if from == |elements| then Ok(None)
    else
      match ElementEquals(elements[from].types, types)
      case Equal => Ok(Some(from))
      case OutOfRange => Throw(IndexOutOfRange)
      case Unequal => IndexOfEqual(elements, types, from + 1)
  }

  /**
    The entries after Add(types, value): Contains/Remove drop the first entry
    equal to the new one, then the new one is appended; or the exception
    Contains throws, with nothing changed.
   */
  function Added<V>(elements: seq<ListElement<V>>, types: seq<Type>, value: Option<V>): Result<seq<ListElement<V>>>
  {
    var found :- IndexOfEqual(elements, types, 0);
    match found
    case None => Ok(elements + [ListElement(types, value)])
    case Some(k) => Ok(elements[..k] + elements[k + 1..] + [ListElement(types, value)])
  }

  /** `j` in FindTypes: the query index compared with entry index `i`, clamped to the query's last type. */
  function Clamp(i: nat, n: nat): nat
    requires n > 0
  {
    if i < n then i else n - 1
  }

  /**
    Whether an entry with types `entry` matches the query `types` (the inner
    loop of FindTypes(Type[])).  An empty query against a non-empty entry
    reads types[0] and throws.
   */
  function Matches(beyond: (Type, Type) -> bool, entry: seq<Type>, types: seq<Type>): Result<bool>
  {
    if entry == [] then Ok(true)
    else if types == [] then Throw(IndexOutOfRange)
    else Ok(forall i :: 0 <= i < |entry| ==> IsGeneralType(beyond, entry[i], types[Clamp(i, |types|)]))
  }

  /** The first entry in insertion order that matches `types`, or the exception its test throws. */
  function FirstMatch<V>(beyond: (Type, Type) -> bool, elements: seq<ListElement<V>>, types: seq<Type>): (r: Result<Option<ListElement<V>>>)
    ensures r.Ok? && r.value.Some? ==> r.value.value in elements
  {
    if elements == [] then Ok(None)
    else
      var m :- Matches(beyond, elements[0].types, types);
      if m then Ok(Some(elements[0])) else FirstMatch(beyond, elements[1..], types)
  }

  /** No entry before index k matches `types`, and none throws. */
  ghost predicate NoMatchBefore<V>(beyond: (Type, Type) -> bool, elements: seq<ListElement<V>>, types: seq<Type>, k: nat)
    requires k <= |elements|
  {
    forall j :: 0 <= j < k ==> Matches(beyond, elements[j].types, types) == Ok(false)
  }

  /**
    FirstMatch is the first matching entry: a found entry matches and every
    earlier one does not; None means no entry matches; an exception is the
    one thrown by the first entry whose test does not answer false.
   */
  lemma {:induction false} FirstMatchIsFirst<V>(beyond: (Type, Type) -> bool, elements: seq<ListElement<V>>, types: seq<Type>)
    ensures var r := FirstMatch(beyond, elements, types);
      && (r.Ok? && r.value.Some? ==>
            exists k :: 0 <= k < |elements| && elements[k] == r.value.value
                        && Matches(beyond, elements[k].types, types) == Ok(true) && NoMatchBefore(beyond, elements, types, k))
      && (r == Ok(None) <==> NoMatchBefore(beyond, elements, types, |elements|))
      && (r.Throw? ==>
            exists k :: 0 <= k < |elements| && Matches(beyond, elements[k].types, types) == Throw(r.error)
                        && NoMatchBefore(beyond, elements, types, k))
  {
    if elements != [] {
      var r := FirstMatch(beyond, elements, types);
      var rest := elements[1..];
      FirstMatchIsFirst(beyond, rest, types);
      assert forall k :: 1 <= k < |elements| ==> elements[k] == rest[k - 1];
      var m := Matches(beyond, elements[0].types, types);
      if m == Ok(false) {
        assert r == FirstMatch(beyond, rest, types);
        forall k | 0 <= k <= |rest| && NoMatchBefore(beyond, rest, types, k)
          ensures NoMatchBefore(beyond, elements, types, k + 1)
        {
          forall j | 0 <= j < k + 1 ensures Matches(beyond, elements[j].types, types) == Ok(false) {
            if j > 0 { assert elements[j] == rest[j - 1]; }
          }
        }
        if r.Ok? && r.value.Some? {
          var k :| 0 <= k < |rest| && rest[k] == r.value.value
                   && Matches(beyond, rest[k].types, types) == Ok(true) && NoMatchBefore(beyond, rest, types, k);
          assert elements[k + 1] == rest[k];
        }
        if r.Throw? {
          var k :| 0 <= k < |rest| && Matches(beyond, rest[k].types, types) == Throw(r.error)
                   && NoMatchBefore(beyond, rest, types, k);
          assert elements[k + 1] == rest[k];
        }
        if NoMatchBefore(beyond, elements, types, |elements|) {
          assert NoMatchBefore(beyond, rest, types, |rest|) by {
            forall j | 0 <= j < |rest| ensures Matches(beyond, rest[j].types, types) == Ok(false) {
              assert rest[j] == elements[j + 1];
            }
          }
        }
      } else {
        assert NoMatchBefore(beyond, elements, types, 0);
        assert !NoMatchBefore(beyond, elements, types, |elements|);
      }
    }
  }

  /** The search from entry n: entry n's test, then the entries after it. */
  lemma FirstMatchAt<V>(beyond: (Type, Type) -> bool, elements: seq<ListElement<V>>, n: nat, types: seq<Type>)
    requires n < |elements|
    ensures FirstMatch(beyond, elements[n..], types)
         == match Matches(beyond, elements[n].types, types)
            case Throw(e) => Throw(e)
            case Ok(m) => if m then Ok(Some(elements[n])) else FirstMatch(beyond, elements[n + 1..], types)
  {
    assert elements[n..][0] == elements[n];
    assert elements[n..][1..] == elements[n + 1..];
  }

  /** Every type of an entry is general for the single query type `t` (the test of FindTypes(Type)). */
  predicate GeneralFor(beyond: (Type, Type) -> bool, entry: seq<Type>, t: Type) {
    forall i :: 0 <= i < |entry| ==> IsGeneralType(beyond, entry[i], t)
  }

  /** The first entry all of whose types are general for the single type `t`. */
  function FirstMatchOne<V>(beyond: (Type, Type) -> bool, elements: seq<ListElement<V>>, t: Type): (r: Option<ListElement<V>>)
    ensures r.Some? ==> r.value in elements
  {
    if elements == [] then None
    else if GeneralFor(beyond, elements[0].types, t) then Some(elements[0])
    else FirstMatchOne(beyond, elements[1..], t)
  }

  /** No entry before index k has all its types general for `t`. */
  ghost predicate NoneGeneralBefore<V>(beyond: (Type, Type) -> bool, elements: seq<ListElement<V>>, t: Type, k: nat)
    requires k <= |elements|
  {
    forall j :: 0 <= j < k ==> !GeneralFor(beyond, elements[j].types, t)
  }

  /**
    FirstMatchOne is the first entry whose types are all general for `t`:
    every earlier entry has a type that is not; None means no entry
    qualifies.
   */
  lemma {:induction false} FirstMatchOneIsFirst<V>(beyond: (Type, Type) -> bool, elements: seq<ListElement<V>>, t: Type)
    ensures var r := FirstMatchOne(beyond, elements, t);
      && (r.Some? ==>
            exists k :: 0 <= k < |elements| && elements[k] == r.value && GeneralFor(beyond, elements[k].types, t)
                        && NoneGeneralBefore(beyond, elements, t, k))
      && (r.None? <==> NoneGeneralBefore(beyond, elements, t, |elements|))
  {
    if elements != [] {
      var r := FirstMatchOne(beyond, elements, t);
      var rest := elements[1..];
      FirstMatchOneIsFirst(beyond, rest, t);
      if !GeneralFor(beyond, elements[0].types, t) {
        forall k | 0 <= k <= |rest| && NoneGeneralBefore(beyond, rest, t, k)
          ensures NoneGeneralBefore(beyond, elements, t, k + 1)
        {
          forall j | 0 <= j < k + 1 ensures !GeneralFor(beyond, elements[j].types, t) {
            if j > 0 { assert elements[j] == rest[j - 1]; }
          }
        }
        if r.Some? {
          var k :| 0 <= k < |rest| && rest[k] == r.value && GeneralFor(beyond, rest[k].types, t)
                   && NoneGeneralBefore(beyond, rest, t, k);
          assert elements[k + 1] == rest[k];
        }
        if NoneGeneralBefore(beyond, elements, t, |elements|) {
          assert NoneGeneralBefore(beyond, rest, t, |rest|) by {
            forall j | 0 <= j < |rest| ensures !GeneralFor(beyond, rest[j].types, t) {
              assert rest[j] == elements[j + 1];
            }
          }
        }
      } else {
        assert NoneGeneralBefore(beyond, elements, t, 0);
        assert !NoneGeneralBefore(beyond, elements, t, |elements|);
      }
    }
  }

  /** The single-type search from entry n: entry n's test, then the entries after it. */
  lemma FirstMatchOneAt<V>(beyond: (Type, Type) -> bool, elements: seq<ListElement<V>>, n: nat, t: Type)
    requires n < |elements|
    ensures FirstMatchOne(beyond, elements[n..], t)
         == if GeneralFor(beyond, elements[n].types, t) then Some(elements[n]) else FirstMatchOne(beyond, elements[n + 1..], t)
  {
    assert elements[n..][0] == elements[n];
    assert elements[n..][1..] == elements[n + 1..];
  }

  /** First match over a concatenation: the first part is searched before the second. */
  lemma {:induction false} FirstMatchAppend<V>(beyond: (Type, Type) -> bool, front: seq<ListElement<V>>, back: seq<ListElement<V>>, types: seq<Type>)
    ensures FirstMatch(beyond, front + back, types) ==
      (match FirstMatch(beyond, front, types)
       case Throw(e) => Throw(e)
       case Ok(Some(x)) => Ok(Some(x))
       case Ok(None) => FirstMatch(beyond, back, types))
  {
    if front != [] {
      assert (front + back)[0] == front[0];
      assert (front + back)[1..] == front[1..] + back;
      FirstMatchAppend(beyond, front[1..], back, types);
    } else {
      assert front + back == back;
    }
  }

  /**
    GetValue(Type) agrees with GetValue(Type[]) on the one-type query: with
    clamping, every type of an entry is compared with the single query type.
   */
  lemma {:induction false} SingleTypeQuery<V>(beyond: (Type, Type) -> bool, elements: seq<ListElement<V>>, t: Type)
    ensures FirstMatch(beyond, elements, [t]) == Ok(FirstMatchOne(beyond, elements, t))
  {
    if elements != [] {
      var entry := elements[0].types;
      assert forall i :: 0 <= i < |entry| ==> Clamp(i, 1) == 0;
      assert Matches(beyond, entry, [t]) == Ok(GeneralFor(beyond, entry, t));
      FirstMatchAt(beyond, elements, 0, [t]);
      FirstMatchOneAt(beyond, elements, 0, t);
      assert elements[0..] == elements;
      SingleTypeQuery(beyond, elements[1..], t);
    }
  }

  /** A non-empty query never makes FirstMatch throw. */
  lemma {:induction false} NonEmptyQueryNeverThrows<V>(beyond: (Type, Type) -> bool, elements: seq<ListElement<V>>, types: seq<Type>)
    requires types != []
    ensures FirstMatch(beyond, elements, types).Ok?
  {
    if elements != [] {
      NonEmptyQueryNeverThrows(beyond, elements[1..], types);
    }
  }

  /**
    Keys of different lengths: adding [a, b] drops an entry keyed [a],
    because that entry's types are a prefix of the new key.
   */
  lemma ShorterKeyIsReplaced<V>(a: Type, b: Type, v: Option<V>, w: Option<V>)
    ensures Added([ListElement([a], v)], [a, b], w) == Ok([ListElement([a, b], w)])
  {
    var elements := [ListElement([a], v)];
    assert [a, b][..1] == [a];
    assert ElementEquals([a], [a, b]) == Equal;
    assert IndexOfEqual(elements, [a, b], 0) == Ok(Some(0));
    assert elements[..0] + elements[1..] == [];
    assert Added(elements, [a, b], w) == Ok(elements[..0] + elements[1..] + [ListElement([a, b], w)]);
    assert elements[..0] + elements[1..] + [ListElement([a, b], w)] == [ListElement([a, b], w)];
  }

  /** Adding [a] when an entry is keyed [a, b] throws: Equals reads past the end of the new key. */
  lemma LongerKeyThrows<V>(a: Type, b: Type, v: Option<V>, w: Option<V>)
    ensures Added([ListElement([a, b], v)], [a], w) == Throw(IndexOutOfRange)
  {
    assert [a, b][..1] == [a];
    assert ElementEquals([a, b], [a]) == OutOfRange;
  }

  /** Every key has `n` types, as when one dictionary holds pairs only. */
  ghost predicate Uniform<V>(elements: seq<ListElement<V>>, n: nat) {
    forall k :: 0 <= k < |elements| ==> |elements[k].types| == n
  }

  /** List.Remove with exact key equality: drops the first entry keyed `types`. */
  function RemoveFirst<V>(elements: seq<ListElement<V>>, types: seq<Type>): seq<ListElement<V>>
  {
    if elements == [] then []
    else if elements[0].types == types then elements[1..]
    else [elements[0]] + RemoveFirst(elements[1..], types)
  }

  /** How many entries are keyed exactly `types`. */
  function CountKeyed<V>(elements: seq<ListElement<V>>, types: seq<Type>): nat
  {
    if elements == [] then 0
    else (if elements[0].types == types then 1 else 0) + CountKeyed(elements[1..], types)
  }

  lemma {:induction false} CountAppend<V>(front: seq<ListElement<V>>, back: seq<ListElement<V>>, types: seq<Type>)
    ensures CountKeyed(front + back, types) == CountKeyed(front, types) + CountKeyed(back, types)
  {
    if front != [] {
      assert (front + back)[1..] == front[1..] + back;
      CountAppend(front[1..], back, types);
    } else {
      assert front + back == back;
    }
  }

  lemma {:induction false} CountRemoveFirst<V>(elements: seq<ListElement<V>>, types: seq<Type>)
    ensures CountKeyed(RemoveFirst(elements, types), types) ==
      if CountKeyed(elements, types) == 0 then 0 else CountKeyed(elements, types) - 1
  {
    if elements != [] && elements[0].types != types {
      CountRemoveFirst(elements[1..], types);
      CountAppend([elements[0]], RemoveFirst(elements[1..], types), types);
    }
  }

  /**
    With keys of one length, the prefix test of ListElement.Equals is plain
    equality: Add removes the first entry keyed `types`, if any, and appends
    the new entry at the end; the other entries keep their relative order.
   */
  lemma {:induction false} AddReplacesEntry<V>(elements: seq<ListElement<V>>, types: seq<Type>, value: Option<V>, from: nat)
    requires from <= |elements| && Uniform(elements, |types|)
    requires forall k :: 0 <= k < from ==> elements[k].types != types
    ensures IndexOfEqual(elements, types, from).Ok?
    ensures var found := IndexOfEqual(elements, types, from).value;
      RemoveFirst(elements, types) ==
        if found.None? then elements else elements[..found.value] + elements[found.value + 1..]
    decreases |elements| - from
  {
    if from < |elements| {
      SameLengthEquality(elements[from].types, types);
      if elements[from].types == types {
        RemoveFirstAt(elements, types, from);
      } else {
        AddReplacesEntry(elements, types, value, from + 1);
      }
    } else {
      RemoveFirstAbsent(elements, types);
    }
  }

  lemma {:induction false} RemoveFirstAt<V>(elements: seq<ListElement<V>>, types: seq<Type>, k: nat)
    requires k < |elements| && elements[k].types == types
    requires forall j :: 0 <= j < k ==> elements[j].types != types
    ensures RemoveFirst(elements, types) == elements[..k] + elements[k + 1..]
  {
    if k > 0 {
      RemoveFirstAt(elements[1..], types, k - 1);
      assert elements[1..][..k - 1] + elements[1..][k..] == elements[1..k] + elements[k + 1..];
      assert [elements[0]] + elements[1..k] == elements[..k];
    }
  }

  lemma {:induction false} RemoveFirstAbsent<V>(elements: seq<ListElement<V>>, types: seq<Type>)
    requires forall j :: 0 <= j < |elements| ==> elements[j].types != types
    ensures RemoveFirst(elements, types) == elements
  {
    if elements != [] {
      RemoveFirstAbsent(elements[1..], types);
    }
  }

  /**
    After Add(types, value) on a dictionary whose keys all have |types| types
    and hold `types` at most once, exactly one entry is keyed `types`: the
    last one, carrying `value`, after the other entries in their old order.
   */
  lemma AddKeepsOneEntry<V>(elements: seq<ListElement<V>>, types: seq<Type>, value: Option<V>)
    requires Uniform(elements, |types|) && CountKeyed(elements, types) <= 1
    ensures Added(elements, types, value) == Ok(RemoveFirst(elements, types) + [ListElement(types, value)])
    ensures CountKeyed(Added(elements, types, value).value, types) == 1
  {
    AddReplacesEntry(elements, types, value, 0);
    CountRemoveFirst(elements, types);
    CountAppend(RemoveFirst(elements, types), [ListElement(types, value)], types);
  }

  /** No key is held by two entries. */
  ghost predicate KeysUnique<V>(elements: seq<ListElement<V>>) {
    forall key :: CountKeyed(elements, key) <= 1
  }

  /**
    The invariant of a dictionary whose keys all have n types: it holds
    trivially for the empty dictionary, and every Add of an n-type key keeps
    it, so the lemmas about Add apply to any dictionary built that way.
   */
  lemma AddKeepsKeysUnique<V>(elements: seq<ListElement<V>>, types: seq<Type>, value: Option<V>)
    requires Uniform(elements, |types|) && KeysUnique(elements)
    ensures Added(elements, types, value).Ok?
    ensures Uniform(Added(elements, types, value).value, |types|)
    ensures KeysUnique(Added(elements, types, value).value)
  {
    AddKeepsOneEntry(elements, types, value);
    var rest := RemoveFirst(elements, types);
    var added := rest + [ListElement(types, value)];
    RemoveFirstUniform(elements, types, |types|);
    forall key
      ensures CountKeyed(added, key) <= 1
    {
      if key != types {
        RemoveFirstOther(elements, types, key);
        CountAppend(rest, [ListElement(types, value)], key);
      }
    }
  }

  /** Removing the first entry with one key leaves the count of every other key unchanged. */
  lemma {:induction false} RemoveFirstOther<V>(elements: seq<ListElement<V>>, types: seq<Type>, key: seq<Type>)
    requires key != types
    ensures CountKeyed(RemoveFirst(elements, types), key) == CountKeyed(elements, key)
  {
    if elements != [] && elements[0].types != types {
      RemoveFirstOther(elements[1..], types, key);
      CountAppend([elements[0]], RemoveFirst(elements[1..], types), key);
    }
  }

  /** Removing an entry keeps every remaining key at n types. */
  lemma {:induction false} RemoveFirstUniform<V>(elements: seq<ListElement<V>>, types: seq<Type>, n: nat)
    requires Uniform(elements, n)
    ensures Uniform(RemoveFirst(elements, types), n)
  {
    if elements != [] && elements[0].types != types {
      RemoveFirstUniform(elements[1..], types, n);
    }
  }

  /**
    Re-adding a key moves its entry to the end: a lookup now finds any other
    matching entry, including ones added after the first Add, before it.
   */
  lemma LookupAfterAdd<V>(beyond: (Type, Type) -> bool, elements: seq<ListElement<V>>, types: seq<Type>, value: Option<V>, query: seq<Type>)
    requires Uniform(elements, |types|) && CountKeyed(elements, types) <= 1
    ensures FirstMatch(beyond, Added(elements, types, value).value, query) ==
      (match FirstMatch(beyond, RemoveFirst(elements, types), query)
       case Throw(e) => Throw(e)
       case Ok(Some(x)) => Ok(Some(x))
       case Ok(None) => FirstMatch(beyond, [ListElement(types, value)], query))
  {
    AddKeepsOneEntry(elements, types, value);
    FirstMatchAppend(beyond, RemoveFirst(elements, types), [ListElement(types, value)], types);
    FirstMatchAppend(beyond, RemoveFirst(elements, types), [ListElement(types, value)], query);
  }

  /** After Add(types, value) with a non-empty key, IsTypesInList(types) holds. */
  lemma FoundAfterAdd<V>(beyond: (Type, Type) -> bool, elements: seq<ListElement<V>>, types: seq<Type>, value: Option<V>)
    requires types != [] && Uniform(elements, |types|) && CountKeyed(elements, types) <= 1
    ensures FirstMatch(beyond, Added(elements, types, value).value, types).Ok?
    ensures FirstMatch(beyond, Added(elements, types, value).value, types).value.Some?
  {
    LookupAfterAdd(beyond, elements, types, value, types);
    NonEmptyQueryNeverThrows(beyond, RemoveFirst(elements, types), types);
    assert forall i :: 0 <= i < |types| ==> Clamp(i, |types|) == i;
    assert Matches(beyond, types, types) == Ok(true);
  }

  class TypeDictionary<V> {
    /** The entries, oldest first. */
    var elements: seq<ListElement<V>>
    /** What IsGeneralType decides by reflection when the two types differ. */
    const beyond: (Type, Type) -> bool

    constructor (beyond: (Type, Type) -> bool)
      ensures elements == [] && this.beyond == beyond
    {
      elements := [];
      this.beyond := beyond;
    }

    /** List.IndexOf over the entries, as called by Contains and Remove. */
    method IndexOf(types: seq<Type>) returns (r: Result<Option<nat>>)
      ensures r == IndexOfEqual(elements, types, 0)
    {
      var n := 0;
      while n < |elements|
        invariant 0 <= n <= |elements|
        invariant IndexOfEqual(elements, types, 0) == IndexOfEqual(elements, types, n)
      {
        var eq := ElementEquals(elements[n].types, types);
        if eq == Equal {
          return Ok(Some(n));
        } else if eq == OutOfRange {
          return Throw(IndexOutOfRange);
        }
        n := n + 1;
      }
      return Ok(None);
    }

    /**
      Add: drops the entry equal to the new one, then appends the new one.
      Contains and Remove scan with the same comparisons, so one scan
      decides both; when Contains throws, nothing changes.
     */
    method Add(types: seq<Type>, value: Option<V>) returns (outcome: Result<()>)
      modifies this
      ensures outcome.Ok? ==> Added(old(elements), types, value) == Ok(elements)
      ensures outcome.Throw? ==>
        Added(old(elements), types, value) == Throw(outcome.error) && elements == old(elements)
    {
      var found := IndexOf(types);
      if found.Throw? {
        return Throw(found.error);
      }
      if found.value.Some? {
        var k := found.value.value;
        elements := elements[..k] + elements[k + 1..];
      }
      elements := elements + [ListElement(types, value)];
      return Ok(());
    }

    /** FindTypes(Type[]): the first entry whose types are general for the query, index clamped. */
    method FindTypes(types: seq<Type>) returns (r: Result<Option<ListElement<V>>>)
      ensures r == FirstMatch(beyond, elements, types)
    {
      var n := 0;
      while n < |elements|
        invariant 0 <= n <= |elements|
        invariant FirstMatch(beyond, elements, types) == FirstMatch(beyond, elements[n..], types)
      {
        var element := elements[n];
        var isAssignable := true;
        var i, j := 0, 0;
        while i < |element.types|
          invariant 0 <= i <= |element.types|
          invariant i > 0 ==> types != [] && j == Clamp(i - 1, |types|)
          invariant i == 0 ==> j == 0
          invariant isAssignable
          invariant forall k :: 0 <= k < i ==> IsGeneralType(beyond, element.types[k], types[Clamp(k, |types|)])
        {
          if i < |types| {
            j := i;
          }
          if j >= |types| {
            FirstMatchAt(beyond, elements, n, types);
            return Throw(IndexOutOfRange);
          }
          if IsGeneralType(beyond, element.types[i], types[j]) {
            i := i + 1;
            continue;
          }
          isAssignable := false;
          break;
        }
        FirstMatchAt(beyond, elements, n, types);
        assert isAssignable <==> Matches(beyond, element.types, types) == Ok(true);
        if isAssignable {
          return Ok(Some(element));
        }
        n := n + 1;
      }
      return Ok(None);
    }

    /** FindTypes(Type): the first entry all of whose types are general for `t`. */
    method FindType(t: Type) returns (r: Option<ListElement<V>>)
      ensures r == FirstMatchOne(beyond, elements, t)
    {
      var n := 0;
      while n < |elements|
        invariant 0 <= n <= |elements|
        invariant FirstMatchOne(beyond, elements, t) == FirstMatchOne(beyond, elements[n..], t)
      {
        var element := elements[n];
        var isAssignable := true;
        var i := 0;
        while i < |element.types|
          invariant 0 <= i <= |element.types|
          invariant isAssignable
          invariant forall k :: 0 <= k < i ==> IsGeneralType(beyond, element.types[k], t)
        {
          if IsGeneralType(beyond, element.types[i], t) {
            i := i + 1;
            continue;
          }
          isAssignable := false;
          break;
        }
        FirstMatchOneAt(beyond, elements, n, t);
        assert isAssignable <==> GeneralFor(beyond, element.types, t);
        if isAssignable {
          return Some(element);
        }
        n := n + 1;
      }
      return None;
    }

    /** GetValue(Type[]): the value of the first matching entry, or null when none matches. */
    method GetValue(types: seq<Type>) returns (r: Result<Option<V>>)
      ensures FirstMatch(beyond, elements, types).Throw? <==> r.Throw?
      ensures r.Ok? ==>
        (var found := FirstMatch(beyond, elements, types).value; r.value == if found.Some? then found.value.value else None)
    {
      var elem := FindTypes(types);
      if elem.Throw? {
        return Throw(elem.error);
      }
      return Ok(if elem.value.Some? then elem.value.value.value else None);
    }

    /** GetValue(Type): the value of the first entry matching the single type, or null. */
    method GetValueOne(t: Type) returns (r: Option<V>)
      ensures r == (var found := FirstMatchOne(beyond, elements, t); if found.Some? then found.value.value else None)
    {
      var elem := FindType(t);
      return if elem.Some? then elem.value.value else None;
    }

    /** IsTypesInList: whether some entry matches, whatever value that entry holds. */
    method IsTypesInList(types: seq<Type>) returns (r: Result<bool>)
      ensures FirstMatch(beyond, elements, types).Throw? <==> r.Throw?
      ensures r.Ok? ==> (r.value <==> FirstMatch(beyond, elements, types).value.Some?)
    {
      var elem := FindTypes(types);
      if elem.Throw? {
        return Throw(elem.error);
      }
      return Ok(elem.value.Some?);
    }
  }
}
