/**
  The router's two-tiered cache. Values are filed first under a bucket key
  (typically the identity of a route) and then under a property name within
  that bucket. Buckets appear lazily on the first write and are never removed.
 */
module Cache {

  /** The whole cache as a value: bucket key to bucket, bucket = property name to value. */
  type Store<V> = map<string, map<string, V>>

  /** True iff a bucket exists for `bucketKey`, whether or not it holds any property. */
  predicate Contains<V>(store: Store<V>, bucketKey: string)
  {
    bucketKey in store
  }

  /** True iff the bucket exists and a value is filed in it under `prop`. */
  predicate Present<V>(store: Store<V>, bucketKey: string, prop: string)
  {
    bucketKey in store && prop in store[bucketKey]
  }

  /**
    The value filed under (`bucketKey`, `prop`), or `defaultValue` when the
    bucket or the property is absent. Presence is a membership test, never a
    test of the stored value, so any stored value (a "falsy" one included)
    comes back as it was stored.
   */
  function Get<V>(store: Store<V>, bucketKey: string, prop: string, defaultValue: V): (r: V)
    ensures !Contains(store, bucketKey) ==> r == defaultValue
    ensures Contains(store, bucketKey) && prop !in store[bucketKey] ==> r == defaultValue
    ensures Present(store, bucketKey, prop) ==> r == store[bucketKey][prop]
  {
    if bucketKey in store && prop in store[bucketKey] then store[bucketKey][prop] else defaultValue
  }

  /**
    The store after writing `value` under (`bucketKey`, `prop`): the bucket is
    created when absent and the pair now holds `value`. No other pair changes,
    no bucket other than `bucketKey` appears, and nothing that was present
    disappears.
   */
  function Put<V>(store: Store<V>, bucketKey: string, prop: string, value: V): (r: Store<V>)
    ensures r.Keys == store.Keys + {bucketKey}
    ensures Present(r, bucketKey, prop) && r[bucketKey][prop] == value
    ensures forall b, p :: b != bucketKey || p != prop ==>
              (Present(r, b, p) <==> Present(store, b, p)) && (Present(store, b, p) ==> r[b][p] == store[b][p])
    ensures forall b :: b in store ==> store[b].Keys <= r[b].Keys
  {
    var bucket := if bucketKey in store then store[bucketKey] else map[];
    store[bucketKey := bucket[prop := value]]
  }

  /** A read of a pair just written returns the written value, whatever default it supplies. */
  lemma LookupAfterStash<V>(store: Store<V>, bucketKey: string, prop: string, value: V, defaultValue: V)
    ensures Get(Put(store, bucketKey, prop, value), bucketKey, prop, defaultValue) == value
  {
  }

  /** A write to one pair leaves the read of every other pair as it was. */
  lemma StashIsolated<V>(store: Store<V>, bucketKey: string, prop: string, value: V,
                         b: string, p: string, defaultValue: V)
    requires b != bucketKey || p != prop
    ensures Get(Put(store, bucketKey, prop, value), b, p, defaultValue) == Get(store, b, p, defaultValue)
    ensures Contains(Put(store, bucketKey, prop, value), b) <==> Contains(store, b) || b == bucketKey
  {
  }

  /** Of two writes to the same pair only the second remains visible: the first leaves no trace. */
  lemma StashOverwrites<V>(store: Store<V>, bucketKey: string, prop: string, first: V, second: V)
    ensures Put(Put(store, bucketKey, prop, first), bucketKey, prop, second)
         == Put(store, bucketKey, prop, second)
  {
    var bucket := if bucketKey in store then store[bucketKey] else map[];
    assert bucket[prop := first][prop := second] == bucket[prop := second];
  }

  /** Writes to two different pairs do not interfere, so their order does not matter. */
  lemma StashesToDistinctPairsCommute<V>(store: Store<V>, b1: string, p1: string, v1: V,
                                         b2: string, p2: string, v2: V)
    requires b1 != b2 || p1 != p2
    ensures Put(Put(store, b1, p1, v1), b2, p2, v2) == Put(Put(store, b2, p2, v2), b1, p1, v1)
  {
    var bucket1 := if b1 in store then store[b1] else map[];
    var bucket2 := if b2 in store then store[b2] else map[];
    if b1 == b2 {
      assert bucket1[p1 := v1][p2 := v2] == bucket1[p2 := v2][p1 := v1];
    } else {
      assert store[b1 := bucket1[p1 := v1]][b2 := bucket2[p2 := v2]]
          == store[b2 := bucket2[p2 := v2]][b1 := bucket1[p1 := v1]];
    }
  }

  /** The in-place cache object; `cache` is the nested object the router mutates. */
  class BucketCache<V> {
    var cache: Store<V>

    /** A new cache has no buckets, so every lookup misses. */
    constructor ()
      ensures cache == map[]
      ensures forall b :: !Contains(cache, b)
      ensures forall b, p, d :: Get(cache, b, p, d) == d
    {
      cache := map[];
    }

    /** Whether a bucket exists; a query only, so it creates nothing. */
    method Has(bucketKey: string) returns (r: bool)
      ensures r <==> Contains(cache, bucketKey)
    {
      r := bucketKey in cache;
    }

    /** Creates the bucket when absent, then writes or overwrites the property. */
    method Stash(bucketKey: string, prop: string, value: V)
      modifies this
      ensures cache == Put(old(cache), bucketKey, prop, value)
      ensures old(cache).Keys <= cache.Keys && Contains(cache, bucketKey)
      ensures forall d :: Get(cache, bucketKey, prop, d) == value
      ensures forall b, p, d :: b != bucketKey || p != prop ==> Get(cache, b, p, d) == Get(old(cache), b, p, d)
    {
      var bucket: map<string, V>;
      if bucketKey in cache {
        bucket := cache[bucketKey];
      } else {
        bucket := map[];
        cache := cache[bucketKey := bucket];
      }
      cache := cache[bucketKey := bucket[prop := value]];
    }

    /** The stored value, or `defaultValue` when the bucket or the property is absent. */
    method Lookup(bucketKey: string, prop: string, defaultValue: V) returns (r: V)
      ensures r == Get(cache, bucketKey, prop, defaultValue)
    {
      if bucketKey !in cache {
        return defaultValue;
      }
      var bucket := cache[bucketKey];
      if prop in bucket {
        r := bucket[prop];
      } else {
        r := defaultValue;
      }
    }
  }

  /**
    What a client may rely on from the contracts alone: a miss creates no
    bucket, a stored `false` is returned even when the default is `true`, and
    writes to one bucket do not reach another.
   */
  method UsageScenarios(b: string, other: string, p: string)
    requires b != other
  {
    var c := new BucketCache<bool>();
    var present := c.Has(b);
    assert !present;
    var x := c.Lookup(b, p, true);
    assert x;
    present := c.Has(b);
    assert !present;

    c.Stash(b, p, false);
    x := c.Lookup(b, p, true);
    assert !x;
    present := c.Has(b);
    assert present;
    x := c.Lookup(other, p, true);
    assert x;
    x := c.Lookup(b, "missing" + p, true);
    assert x;

    c.Stash(b, p, true);
    c.Stash(b, p, false);
    x := c.Lookup(b, p, true);
    assert !x;
  }
}
