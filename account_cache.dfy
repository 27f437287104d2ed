/**
 * The in-memory accounts cache, seen through the three operations the
 * repository and the bootstrap code use: `set` with a lifetime, `delete` and
 * `taint`, and `get`. Expiry by the clock is not modelled; what is modelled
 * is that a deleted or tainted key misses on the next `get`, and that `set`
 * makes the key hit again.
 */
module AccountCache {
  import opened Wrappers

  /** `CACHE_FOREVER`, or the cache's default time to live. */
  datatype Lifetime = Forever | DefaultTtl

  datatype Entry<V> = Entry(value: V, lifetime: Lifetime)

  class Cache<K(==), V> {
    var entries: map<K, Entry<V>>
    var tainted: set<K>

    constructor ()
      ensures entries == map[] && tainted == {}
    {
      entries := map[];
      tainted := {};
    }

    /** What `get` answers: the stored value unless the key is absent or tainted. */
    function Lookup(k: K): (r: Option<V>)
      reads this
      ensures r.Some? <==> k in entries && k !in tainted
      ensures r.Some? ==> r.value == entries[k].value
    {
      if k in entries && k !in tainted then Some(entries[k].value) else None
    }

    method Set(k: K, v: V, lifetime: Lifetime)
      modifies this
      ensures entries == old(entries)[k := Entry(v, lifetime)]
      ensures tainted == old(tainted) - {k}
      ensures Lookup(k) == Some(v)
    {
      entries := entries[k := Entry(v, lifetime)];
      tainted := tainted - {k};
    }

    method Delete(k: K)
      modifies this
      ensures entries == old(entries) - {k}
      ensures tainted == old(tainted) - {k}
      ensures Lookup(k) == None
    {
      entries := entries - {k};
      tainted := tainted - {k};
    }

    method Taint(k: K)
      modifies this
      ensures entries == old(entries)
      ensures tainted == old(tainted) + {k}
      ensures Lookup(k) == None
    {
      tainted := tainted + {k};
    }
  }
}
