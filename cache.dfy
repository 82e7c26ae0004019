/** The Redis-backed cache of backend/src/services/cache.service.ts over an
    abstract keyspace: entries with their time to live, the analytics key
    scheme, and the invalidation of every analytics entry of a dataset. A
    failing Redis call is the `fails` flag; every such failure is swallowed. */
module CacheService {
  import opened Wrappers

  /** A stored value and the time to live, in seconds, it was stored with. */
  datatype Entry<V> = Entry(value: V, ttlSeconds: nat)

  const DefaultTtl: nat := 3600
  const AnalyticsTtl: nat := 7200

  const AnalyticsPrefix := "analytics:"

  /** `analytics:<datasetId>:<metric>`. */
  function AnalyticsKey(datasetId: string, metric: string): string {
    AnalyticsPrefix + datasetId + ":" + metric
  }

  /** The prefix that the pattern `analytics:<datasetId>:*` asks for. */
  function DatasetPattern(datasetId: string): string {
    AnalyticsPrefix + datasetId + ":"
  }

  predicate MatchesDataset(key: string, datasetId: string) {
    DatasetPattern(datasetId) <= key
  }

  /** The keyspace after invalidating a dataset: every key the pattern
      matches is gone. */
  function WithoutDataset<V>(store: map<string, Entry<V>>, datasetId: string): (r: map<string, Entry<V>>)
    ensures forall k :: k in r <==> k in store && !MatchesDataset(k, datasetId)
    ensures forall k :: k in r ==> r[k] == store[k]
  {
    map k | k in store && !MatchesDataset(k, datasetId) :: store[k]
  }

  class Cache<V> {
    var store: map<string, Entry<V>>

    constructor()
      ensures store == map[]
    {
      store := map[];
    }

    /** `get`: the stored value, or nothing for a missing key or on error. */
    method Get(key: string, fails: bool) returns (r: Option<V>)
      ensures fails ==> r == None
      ensures !fails ==> (r.Some? <==> key in store)
      ensures r.Some? ==> key in store && r.value == store[key].value
    {
      if fails {
        return None;
      }
      if key in store {
        r := Some(store[key].value);
      } else {
        r := None;
      }
    }

    /** `set`: stores the value with its time to live, one hour by default. */
    method Set(key: string, value: V, fails: bool, ttlSeconds: nat := DefaultTtl)
      modifies this
      ensures store == if fails then old(store) else old(store)[key := Entry(value, ttlSeconds)]
    {
      if !fails {
        store := store[key := Entry(value, ttlSeconds)];
      }
    }

    /** `del`: removes the key. */
    method Del(key: string, fails: bool)
      modifies this
      ensures store == if fails then old(store) else old(store) - {key}
    {
      if !fails {
        store := store - {key};
      }
    }

    /** `getAnalytics`: `get` under the analytics key. */
    method GetAnalytics(datasetId: string, metric: string, fails: bool) returns (r: Option<V>)
      ensures fails ==> r == None
      ensures r.Some? ==> AnalyticsKey(datasetId, metric) in store
                          && r.value == store[AnalyticsKey(datasetId, metric)].value
      ensures !fails && AnalyticsKey(datasetId, metric) in store ==> r.Some?
    {
      r := Get(AnalyticsKey(datasetId, metric), fails);
    }

    /** `setAnalytics`: stores under the analytics key for two hours; a later
        `GetAnalytics` of the same pair finds the value. */
    method SetAnalytics(datasetId: string, metric: string, value: V, fails: bool)
      modifies this
      ensures !fails ==> store == old(store)[AnalyticsKey(datasetId, metric) := Entry(value, AnalyticsTtl)]
      ensures fails ==> store == old(store)
    {
      Set(AnalyticsKey(datasetId, metric), value, fails, AnalyticsTtl);
    }

    /** `invalidateDatasetCache`: deletes every key that `analytics:<id>:*`
        matches and leaves the others as they were. */
    method InvalidateDatasetCache(datasetId: string, fails: bool)
      modifies this
      ensures store == if fails then old(store) else WithoutDataset(old(store), datasetId)
    {
      if fails {
        return;
      }
      var keys := set k | k in store && MatchesDataset(k, datasetId);
      if |keys| > 0 {
        store := store - keys;
      }
      forall k
        ensures k in store <==> k in WithoutDataset(old(store), datasetId)
      {
        if k in old(store) && MatchesDataset(k, datasetId) {
          assert k in keys;
        }
      }
    }
  }

  // ---------------------------------------------------------------------
  // The key scheme

  /** The part of `s` before its first colon. */
  function UpToColon(s: string): string {
    if s == [] || s[0] == ':' then [] else [s[0]] + UpToColon(s[1..])
  }

  /** A colon-free string followed by a colon is recovered from whatever
      follows it: the colon marks where it ends. */
  lemma {:induction false} UpToColonOf(d: string, rest: string)
    requires ':' !in d
    ensures UpToColon(d + ":" + rest) == d
  {
    if d == [] {
      assert (d + ":" + rest)[0] == ':';
    } else {
      assert (d + ":" + rest)[1..] == d[1..] + ":" + rest;
      assert ':' !in d[1..] by {
        assert forall c :: c in d[1..] ==> c in d;
      }
      UpToColonOf(d[1..], rest);
    }
  }

  lemma ColonDelimited(d1: string, r1: string, d2: string, r2: string)
    requires ':' !in d1 && ':' !in d2
    requires d1 + ":" <= d2 + ":" + r2
    ensures d1 == d2
  {
    var s := d2 + ":" + r2;
    assert s == d1 + ":" + s[|d1| + 1..];
    UpToColonOf(d1, s[|d1| + 1..]);
    UpToColonOf(d2, r2);
  }

  /** With colon-free dataset ids the key determines dataset and metric. */
  lemma AnalyticsKeyInjective(d1: string, m1: string, d2: string, m2: string)
    requires ':' !in d1 && ':' !in d2
    requires AnalyticsKey(d1, m1) == AnalyticsKey(d2, m2)
    ensures d1 == d2 && m1 == m2
  {
    var k := AnalyticsKey(d1, m1);
    var n := |AnalyticsPrefix|;
    assert k[n..] == d1 + ":" + m1;
    assert AnalyticsKey(d2, m2)[n..] == d2 + ":" + m2;
    assert d1 + ":" <= d2 + ":" + m2;
    ColonDelimited(d1, m1, d2, m2);
    assert m1 == k[n + |d1| + 1..] == m2;
  }

  /** Every key built for a dataset matches its invalidation pattern. */
  lemma AnalyticsKeyMatches(datasetId: string, metric: string)
    ensures MatchesDataset(AnalyticsKey(datasetId, metric), datasetId)
  {
    assert AnalyticsKey(datasetId, metric) == DatasetPattern(datasetId) + metric;
  }

  /** With colon-free dataset ids, invalidating one dataset never matches a
      key built for another. */
  lemma InvalidationIsolated(datasetId: string, other: string, metric: string)
    requires ':' !in datasetId && ':' !in other && datasetId != other
    ensures !MatchesDataset(AnalyticsKey(other, metric), datasetId)
  {
    if MatchesDataset(AnalyticsKey(other, metric), datasetId) {
      var n := |AnalyticsPrefix|;
      var k := AnalyticsKey(other, metric);
      assert k[n..] == other + ":" + metric;
      assert DatasetPattern(datasetId)[n..] == datasetId + ":";
      assert datasetId + ":" <= other + ":" + metric;
      ColonDelimited(datasetId, "", other, metric);
      assert false;
    }
  }

  /** Invalidation keeps the analytics of every other dataset, and removes
      every analytics key of the dataset itself. */
  lemma InvalidationKeepsOthers<V>(store: map<string, Entry<V>>, datasetId: string, other: string, metric: string)
    requires ':' !in datasetId && ':' !in other && datasetId != other
    ensures var r := WithoutDataset(store, datasetId);
      && AnalyticsKey(datasetId, metric) !in r
      && (AnalyticsKey(other, metric) in r <==> AnalyticsKey(other, metric) in store)
  {
    AnalyticsKeyMatches(datasetId, metric);
    InvalidationIsolated(datasetId, other, metric);
  }
}
