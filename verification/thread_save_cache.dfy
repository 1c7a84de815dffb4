/**
  ThreadSaveCache<T>: a string-keyed memo table.  Get returns the cached
  value for a key, or computes it once with the caller's getter and
  inserts it without ever overwriting an entry.  The model is sequential.
 */
module Caches {
  import opened Values

  /**
    The outcome of Get(key, getter) on `cache`, where `computed` is what the
    getter returns (or throws) when called: the value returned and the cache
    afterwards, or the getter's exception with the cache unchanged.
   */
  datatype Lookup<T> = Lookup(value: Result<T>, cache: map<string, T>, getterCalled: bool)

  function GetOrAdd<T>(cache: map<string, T>, key: string, computed: Result<T>): (r: Lookup<T>)
    ensures key in cache ==> r.value == Ok(cache[key]) && r.cache == cache && !r.getterCalled
    ensures key !in cache ==> r.getterCalled && r.value == computed
    ensures key !in cache && computed.Ok? ==> r.cache == cache[key := computed.value]
    ensures key !in cache && computed.Throw? ==> r.cache == cache
  {
    if key in cache then Lookup(Ok(cache[key]), cache, false)
    else match computed
      case Ok(v) => Lookup(Ok(v), TryAdd(cache, key, v), true)
      case Throw(e) => Lookup(Throw(e), cache, true)
  }

  /** ConcurrentDictionary.TryAdd: inserts only when the key is absent. */
  function TryAdd<T>(cache: map<string, T>, key: string, v: T): (r: map<string, T>)
    ensures key in r && (key in cache ==> r[key] == cache[key]) && (key !in cache ==> r[key] == v)
    ensures forall k :: k != key ==> (k in r <==> k in cache)
    ensures forall k :: k != key && k in cache ==> r[k] == cache[k]
  {
    if key in cache then cache else cache[key := v]
  }

  /** Insertion never overwrites: every entry present before a Get is there after it, unchanged. */
  lemma GetNeverOverwrites<T>(cache: map<string, T>, key: string, computed: Result<T>, k: string)
    requires k in cache
    ensures k in GetOrAdd(cache, key, computed).cache
    ensures GetOrAdd(cache, key, computed).cache[k] == cache[k]
  {
  }

  /**
    After a successful Get the key is cached, and a second Get of the same
    key returns the same value, changes nothing and does not call its
    getter, whatever that getter would return.
   */
  lemma RepeatedGetIsStable<T>(cache: map<string, T>, key: string, first: Result<T>, second: Result<T>)
    requires GetOrAdd(cache, key, first).value.Ok?
    ensures var once := GetOrAdd(cache, key, first);
      && key in once.cache
      && GetOrAdd(once.cache, key, second) == Lookup(once.value, once.cache, false)
  {
  }

  class ThreadSaveCache<T> {
    /** The cached values; `_cache`. */
    var cache: map<string, T>

    constructor ()
      ensures cache == map[]
    {
      cache := map[];
    }

    /** ConcurrentDictionary.TryGetValue. */
    method TryGetValue(key: string) returns (found: bool, value: Option<T>)
      ensures found <==> key in cache
      ensures found ==> value == Some(cache[key])
      ensures !found ==> value == None
    {
      if key in cache {
        return true, Some(cache[key]);
      }
      return false, None;
    }

    /**
      Get: a hit returns the cached value; a miss calls `getter` once and
      adds its result.  A getter that throws leaves the cache as it was.
     */
    method Get(key: string, getter: () -> Result<T>) returns (value: Result<T>, getterCalled: bool)
      modifies this
      ensures GetOrAdd(old(cache), key, getter()) == Lookup(value, cache, getterCalled)
    {
      var found, cached := TryGetValue(key);
      if found {
        return Ok(cached.value), false;
      }
      value := getter();
      if value.Throw? {
        return value, true;
      }
      cache := TryAdd(cache, key, value.value);
      return value, true;
    }
  }
}
