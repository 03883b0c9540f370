/** The local cache of genc/cc/modules/retrieval. */
module LocalCaches {
  import opened Common

  // local_cache.h and local_cache.cc. Every method runs under the cache's lock, so each one is a
  // single step.

  /** The last `n` elements, or all of them if there are fewer. */
  function Last<V>(log: seq<V>, n: nat): (r: seq<V>)
    ensures |r| <= n && |r| <= |log|
  {
    if n < |log| then log[|log| - n..] else log
  }

  /** Dropping the oldest element of a full window and appending one slides the window. */
  lemma LastSlides<V>(log: seq<V>, n: nat, v: V)
    requires n >= 1
    ensures Last(log + [v], n) == (if |Last(log, n)| >= n then Last(log, n)[1..] else Last(log, n)) + [v]
  {
  }

  lemma LastOfLast<V>(log: seq<V>, n: nat, k: nat)
    ensures Last(Last(log, n), k) == Last(log, if k < n then k else n)
  {
  }

  /** `str_stream << v << delimiter` over the messages. */
  function Printed(messages: seq<string>, delimiter: string): string {
    if messages == [] then ""
    else Printed(messages[..|messages| - 1], delimiter) + messages[|messages| - 1] + delimiter
  }

  /** Read from the front: each message in turn, followed by the delimiter. */
  lemma {:induction false} PrintedInOrder(message: string, others: seq<string>, delimiter: string)
    ensures Printed([], delimiter) == ""
    ensures Printed([message] + others, delimiter) == message + delimiter + Printed(others, delimiter)
    decreases |others|
  {
    var all := [message] + others;
    if others == [] {
      assert all[..|all| - 1] == [];
      assert "" + message + delimiter == message + delimiter + "";
    } else {
      var most := others[..|others| - 1];
      PrintedInOrder(message, most, delimiter);
      assert all[..|all| - 1] == [message] + most;
      assert all[|all| - 1] == others[|others| - 1];
      var last := others[|others| - 1];
      assert (message + delimiter + Printed(most, delimiter)) + last + delimiter
          == message + delimiter + (Printed(most, delimiter) + last + delimiter);
    }
  }

  /** The cache keeps a bounded window of an unbounded log. The source leaves a capacity of 0
      undefined: `Put` would erase from an empty vector. */
  class LocalCache<K(==), V> {
    var cache: map<K, seq<V>>
    const maxMessagesPerKey: nat

    /** Everything put under each key since it was last removed. */
    ghost var log: map<K, seq<V>>

    ghost predicate Valid()
      reads this
    {
      && maxMessagesPerKey >= 1
      && cache.Keys == log.Keys
      && (forall k :: k in cache ==> log[k] != [] && cache[k] == Last(log[k], maxMessagesPerKey))
    }

    ghost function LogOf(key: K): seq<V>
      reads this
    {
      if key in log then log[key] else []
    }

    constructor (maxMessagesPerKey: nat)
      requires maxMessagesPerKey >= 1
      ensures Valid() && log == map[] && this.maxMessagesPerKey == maxMessagesPerKey
    {
      this.maxMessagesPerKey := maxMessagesPerKey;
      cache := map[];
      log := map[];
    }

    method Put(key: K, message: V)
      requires Valid()
      modifies this
      ensures Valid()
      ensures log == old(log)[key := old(LogOf(key)) + [message]]
    {
      var messages := if key in cache then cache[key] else [];
      assert messages == Last(LogOf(key), maxMessagesPerKey);
      LastSlides(LogOf(key), maxMessagesPerKey, message);
      if |messages| >= maxMessagesPerKey {
        messages := messages[1..];
      }
      cache := cache[key := messages + [message]];
      log := log[key := LogOf(key) + [message]];
    }

    /** The last `n` messages put under `key`, as far as the capacity reaches; without `n`
        everything the capacity reaches. A negative `n` is undefined in the source. */
    method Get(key: K, n: Option<int>) returns (r: seq<V>)
      requires Valid() && (n.Some? ==> n.value >= 0)
      ensures r == Last(LogOf(key), if n.Some? && n.value < maxMessagesPerKey then n.value else maxMessagesPerKey)
    {
      if key !in cache {
        return [];
      }
      if n.Some? && n.value < |cache[key]| {
        r := cache[key][|cache[key]| - n.value..];
        LastOfLast(log[key], maxMessagesPerKey, n.value);
      } else {
        r := cache[key];
      }
    }

    method Exists(key: K) returns (r: bool)
      requires Valid()
      ensures r <==> LogOf(key) != []
    {
      r := key in cache;
    }

    method Remove(key: K)
      requires Valid()
      modifies this
      ensures Valid()
      ensures log == old(log) - {key}
    {
      cache := cache - {key};
      log := log - {key};
    }
  }

  /** The function registered under `/local_cache/read`, on the string payloads. */
  method Read(cache: LocalCache<string, string>, defaultKey: string, delimiter: string) returns (result: string)
    requires cache.Valid()
    ensures result == Printed(Last(cache.LogOf(defaultKey), cache.maxMessagesPerKey), delimiter)
  {
    var messages := cache.Get(defaultKey, None);
    result := "";
    for i := 0 to |messages|
      invariant result == Printed(messages[..i], delimiter)
    {
      assert messages[..i + 1][..i] == messages[..i];
      result := result + messages[i] + delimiter;
    }
    assert messages[..|messages|] == messages;
  }

  /** `/local_cache/write` and `/local_cache/remove` return their argument. */
  method Write(cache: LocalCache<string, string>, defaultKey: string, arg: string) returns (result: string)
    requires cache.Valid()
    modifies cache
    ensures cache.Valid() && result == arg
    ensures cache.log == old(cache.log)[defaultKey := old(cache.LogOf(defaultKey)) + [arg]]
  {
    cache.Put(defaultKey, arg);
    result := arg;
  }

  method Clear(cache: LocalCache<string, string>, defaultKey: string, arg: string) returns (result: string)
    requires cache.Valid()
    modifies cache
    ensures cache.Valid() && result == arg && cache.log == old(cache.log) - {defaultKey}
  {
    cache.Remove(defaultKey);
    result := arg;
  }
}
