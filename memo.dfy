/** The `@CACHE.memoize(expire=CACHE_TTL)` decorator: a table from a call's
    arguments to the value that call returned and the time that value
    expires. A call whose arguments have a live entry returns the stored
    value without running the function; any other call runs it and stores
    whatever it returned, fallback values included. */
module Memo {
  import opened Wrappers

  /** CACHE_TTL: seven days, in seconds. */
  const CacheTtl: real := 7.0 * 24.0 * 3600.0

  datatype Entry<V> = Entry(value: V, expiresAt: real)

  /** The value served for `key` at time `now`: an entry is live while its
      expiry time is still ahead. */
  function Lookup<K, V>(entries: map<K, Entry<V>>, key: K, now: real): Option<V> {
    if key in entries && now < entries[key].expiresAt then Some(entries[key].value) else None
  }

  /** One call of the memoised function at time `now`: what it returns and
      the table afterwards. `fetch` is the undecorated function. */
  function Call<K, V>(entries: map<K, Entry<V>>, key: K, now: real, fetch: K -> V): (V, map<K, Entry<V>>) {
    match Lookup(entries, key, now)
    case Some(v) => (v, entries)
    case None => (fetch(key), entries[key := Entry(fetch(key), now + CacheTtl)])
  }

  /** The memo table. */
  class MemoCache<K(==), V> {
    var entries: map<K, Entry<V>>

    constructor ()
      ensures entries == map[]
    {
      entries := map[];
    }

    /** Call the decorated function with arguments `key` at time `now`. */
    method Get(key: K, now: real, fetch: K -> V) returns (v: V)
      modifies this
      ensures key in old(entries) && now < old(entries)[key].expiresAt ==>
        v == old(entries)[key].value && entries == old(entries)
      ensures !(key in old(entries) && now < old(entries)[key].expiresAt) ==>
        v == fetch(key) && entries == old(entries)[key := Entry(v, now + CacheTtl)]
      ensures (v, entries) == Call(old(entries), key, now, fetch)
    {
      if key in entries && now < entries[key].expiresAt {
        v := entries[key].value;
      } else {
        v := fetch(key);
        entries := entries[key := Entry(v, now + CacheTtl)];
      }
    }
  }

  /** After any call the key is served with the value that call returned,
      for as long as the stored entry is live, whatever the function would
      now return; a call that had to fetch keeps its result for exactly
      CacheTtl seconds. */
  lemma {:induction false} CallThenServed<K, V>(entries: map<K, Entry<V>>, key: K, now: real, fetch: K -> V, later: real, refetch: K -> V)
    requires now <= later
    ensures var (v, after) := Call(entries, key, now, fetch);
      && key in after
      && (Lookup(entries, key, now).None? ==> after[key].expiresAt == now + CacheTtl)
      && (later < after[key].expiresAt ==> Call(after, key, later, refetch) == (v, after))
      && (later >= after[key].expiresAt ==>
            Call(after, key, later, refetch) == (refetch(key), after[key := Entry(refetch(key), later + CacheTtl)]))
  {
    var (v, after) := Call(entries, key, now, fetch);
    if Lookup(entries, key, now).None? {
      assert after[key] == Entry(fetch(key), now + CacheTtl);
    } else {
      assert after == entries;
    }
  }

  /** A value fetched at `now` is what the key gives until `now + CacheTtl`
      and not a moment longer: get(put(k, v), k) == v until the TTL
      elapses, and after that a fresh fetch occurs. */
  lemma FetchedValueLivesForTtl<K, V>(entries: map<K, Entry<V>>, key: K, now: real, fetch: K -> V, later: real)
    requires Lookup(entries, key, now).None?
    requires now <= later
    ensures Lookup(Call(entries, key, now, fetch).1, key, later) ==
      if later < now + CacheTtl then Some(fetch(key)) else None
  {
  }

  /** A call touches only its own key: every other key is served as before. */
  lemma CallLeavesOtherKeys<K, V>(entries: map<K, Entry<V>>, key: K, now: real, fetch: K -> V, other: K, at: real)
    requires other != key
    ensures Lookup(Call(entries, key, now, fetch).1, other, at) == Lookup(entries, other, at)
  {
  }
}
