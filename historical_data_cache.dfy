/** A read-through cache in front of a historical time-series source. A
    lookup is keyed by the identifier bundle, data source, data provider and
    field. The cache hashes the key first, and that throws when the bundle
    or the field is null. On a miss the underlying source is asked once and
    its answer, even a null one, is stored; on a hit the stored answer is
    returned without asking the source. A ranged lookup cuts the full series
    down to the dates between start and end, both included. The cache is the
    manager's cache named "HistoricalDataCache", so every provider built on
    the same manager reads and fills the same entries. */
module HistoricalDataCache {
  import opened Common
  import opened Calendar

  /** A bundle of identifiers naming one security. */
  datatype IdentifierBundle = IdentifierBundle(ids: set<string>)

  /** A daily time series: a value on each of its dates. */
  type TimeSeries = map<Date, real>

  /** The key of the cache. Each part may be null; two keys are equal when
      their parts are equal part by part, null equal only to null. */
  datatype CacheKey = CacheKey(dsids: Option<IdentifierBundle>, dataSource: Option<string>,
                               dataProvider: Option<string>, field: Option<string>)

  /** What the cache may hold under a key: a series, a null stored after
      the source answered null, or an object of some other type. */
  datatype Stored = StoredSeries(series: TimeSeries) | StoredNull | StoredOther

  /** The underlying source: the series for a request, or null. */
  type Source = (Option<IdentifierBundle>, Option<string>, Option<string>, Option<string>) -> Option<TimeSeries>

  function Store(ts: Option<TimeSeries>): Stored {
    if ts.Some? then StoredSeries(ts.value) else StoredNull
  }

  /** A key the cache can hash: its bundle and its field are non-null. */
  predicate Hashable(k: CacheKey) {
    k.dsids.Some? && k.field.Some?
  }

  /** Every key the cache holds could be hashed when it was stored. */
  predicate AllHashable(cache: map<CacheKey, Stored>) {
    forall k :: k in cache ==> Hashable(k)
  }

  /** One lookup on a cache: the answer, or the exception thrown while
      hashing the key, and the cache afterwards. */
  function Fetch(cache: map<CacheKey, Stored>, underlying: Source, key: CacheKey)
    : (Result<Option<TimeSeries>>, map<CacheKey, Stored>)
  {
    if !Hashable(key) then
      (Err("NullPointerException"), cache)
    else if key in cache then
      (Ok(if cache[key].StoredSeries? then Some(cache[key].series) else None), cache)
    else
      var ts := underlying(key.dsids, key.dataSource, key.dataProvider, key.field);
      (Ok(ts), cache[key := Store(ts)])
  }

  /** The part of a series from start to end, both dates included. */
  function SubSeries(ts: TimeSeries, start: Date, end: Date): TimeSeries {
    map d | d in ts && !IsAfter(start, d) && !IsAfter(d, end) :: ts[d]
  }

  /** An Ehcache cache: the entries it holds, shared by every object that
      holds a reference to it. */
  class Cache {
    var entries: map<CacheKey, Stored>

    constructor ()
      ensures entries == map[]
    {
      entries := map[];
    }
  }

  /** A cache manager: its caches by name. `CacheManager.create()` hands
      every caller the same process-wide manager. */
  class CacheManager {
    var caches: map<string, Cache>

    constructor ()
      ensures caches == map[]
    {
      caches := map[];
    }

    /** Adds an empty cache under the name unless one already exists; an
        existing cache is kept with its entries. */
    method AddCache(name: string)
      modifies this
      ensures name in old(caches) ==> caches == old(caches)
      ensures name !in old(caches) ==> name in caches && fresh(caches[name]) && caches[name].entries == map[]
                                       && caches == old(caches)[name := caches[name]]
    {
      if name !in caches {
        var c := new Cache();
        caches := caches[name := c];
      }
    }

    /** The cache under the name, or null when there is none. */
    method GetCache(name: string) returns (r: Option<Cache>)
      ensures r == if name in caches then Some(caches[name]) else None
    {
      if name in caches {
        r := Some(caches[name]);
      } else {
        r := None;
      }
    }
  }

  /** The name of the cache every provider stores its answers in. */
  const CacheName := "HistoricalDataCache"

  class CachingProvider {
    const underlying: Source
    const manager: CacheManager
    /** The manager's "HistoricalDataCache": every provider built on the
        same manager holds this same cache. */
    const cache: Cache

    /** Makes sure the manager has the named cache, creating an empty one
        only when it has none, and keeps a reference to it. */
    constructor (underlying: Source, manager: CacheManager)
      modifies manager
      ensures this.underlying == underlying && this.manager == manager
      ensures CacheName in manager.caches && cache == manager.caches[CacheName]
      ensures CacheName in old(manager.caches) ==>
                manager.caches == old(manager.caches) && cache == old(manager.caches[CacheName])
      ensures CacheName !in old(manager.caches) ==> fresh(cache) && cache.entries == map[]
    {
      this.underlying := underlying;
      manager.AddCache(CacheName);
      var found := manager.GetCache(CacheName);
      this.manager := manager;
      this.cache := found.value;
    }

    /** The series for the request, from the cache when it holds the key,
        otherwise from the source, whose answer is then stored; a null
        bundle or field throws while the key is hashed. */
    method GetHistoricalTimeSeries(dsids: Option<IdentifierBundle>, dataSource: Option<string>,
                                   dataProvider: Option<string>, field: Option<string>)
      returns (ts: Result<Option<TimeSeries>>)
      modifies cache
      ensures (ts, cache.entries) == Fetch(old(cache.entries), underlying, CacheKey(dsids, dataSource, dataProvider, field))
    {
      var key := CacheKey(dsids, dataSource, dataProvider, field);
      if dsids.None? || field.None? {
        return Err("NullPointerException");
      }
      if key in cache.entries {
        var value := cache.entries[key];
        if value.StoredSeries? {
          return Ok(Some(value.series));
        } else {
          return Ok(None);
        }
      } else {
        var answer := underlying(dsids, dataSource, dataProvider, field);
        cache.entries := cache.entries[key := Store(answer)];
        ts := Ok(answer);
      }
    }

    /** The series for the request cut to [start, end], or null when the
        full series is null; the exception of the full lookup passes
        through. */
    method GetHistoricalTimeSeriesRange(dsids: Option<IdentifierBundle>, dataSource: Option<string>,
                                        dataProvider: Option<string>, field: Option<string>,
                                        start: Date, end: Date)
      returns (ts: Result<Option<TimeSeries>>)
      modifies cache
      ensures var (full, after) := Fetch(old(cache.entries), underlying, CacheKey(dsids, dataSource, dataProvider, field));
              cache.entries == after
              && ts == match full
                       case Err(e) => Err(e)
                       case Ok(series) => Ok(if series.Some? then Some(SubSeries(series.value, start, end)) else None)
    {
      var full := GetHistoricalTimeSeries(dsids, dataSource, dataProvider, field);
      match full {
        case Err(e) =>
          ts := Err(e);
        case Ok(series) =>
          if series.Some? {
            ts := Ok(Some(SubSeries(series.value, start, end)));
          } else {
            ts := Ok(None);
          }
      }
    }
  }

  /** Two providers built on one manager share its cache: after the first
      answers a hashable key from its source, the second answers the same
      from the cache and never asks its own source. */
  method SharedCacheAnswersFirstSource(first: Source, second: Source, manager: CacheManager, key: CacheKey)
    returns (a: Result<Option<TimeSeries>>, b: Result<Option<TimeSeries>>)
    requires Hashable(key)
    modifies manager, if CacheName in manager.caches then {manager.caches[CacheName]} else {}
    ensures a == b
    ensures (key !in old(if CacheName in manager.caches then manager.caches[CacheName].entries else map[]))
              ==> a == Ok(first(key.dsids, key.dataSource, key.dataProvider, key.field))
  {
    var p := new CachingProvider(first, manager);
    var q := new CachingProvider(second, manager);
    a := p.GetHistoricalTimeSeries(key.dsids, key.dataSource, key.dataProvider, key.field);
    b := q.GetHistoricalTimeSeries(key.dsids, key.dataSource, key.dataProvider, key.field);
  }

  // ---------------------------------------------------------------------
  // The key's equality and hash

  /** What `equals` may be handed. */
  datatype KeyObject = NullObject | KeyValue(key: CacheKey) | OtherObject

  /** Null-safe equality of one part. */
  function PartEquals<T(==)>(a: Option<T>, b: Option<T>): (r: bool)
    ensures r <==> a == b
  {
    if a.None? then b.None? else b.Some? && a.value == b.value
  }

  /** Field, bundle, provider and source compared null-safely, in that
      order; never equal to null or to another type. */
  function KeyEquals(k: CacheKey, obj: KeyObject): (r: bool)
    ensures r <==> obj == KeyValue(k)
  {
    match obj
    case NullObject => false
    case OtherObject => false
    case KeyValue(other) =>
      PartEquals(k.field, other.field) && PartEquals(k.dsids, other.dsids)
      && PartEquals(k.dataProvider, other.dataProvider) && PartEquals(k.dataSource, other.dataSource)
  }

  /** The hash combines the bundle's hash and the field's by exclusive or;
      a null bundle or field throws. */
  function KeyHash(k: CacheKey, bundleHash: IdentifierBundle -> bv32): (r: Result<bv32>)
    ensures r.Ok? <==> Hashable(k)
  {
    if k.dsids.None? || k.field.None? then Err("NullPointerException")
    else Ok(CombinedHash(bundleHash(k.dsids.value), k.field.value))
  }

  function CombinedHash(bundleHashValue: bv32, field: string): bv32 {
    bundleHashValue ^ StringHash(field)
  }

  // ---------------------------------------------------------------------
  // Properties

  /** A key with a null bundle or field throws the exception its hash
      throws, before the cache or the source is consulted, and the cache is
      left alone. */
  lemma UnhashableKeyThrows(cache: map<CacheKey, Stored>, underlying: Source, key: CacheKey,
                            bundleHash: IdentifierBundle -> bv32)
    ensures Fetch(cache, underlying, key).0.Err? <==> KeyHash(key, bundleHash).Err?
    ensures KeyHash(key, bundleHash).Err? ==> Fetch(cache, underlying, key) == (Err(KeyHash(key, bundleHash).message), cache)
  {
  }

  /** Lookups keep the cache's keys hashable: only a key that was hashed
      successfully is ever stored. */
  lemma FetchKeepsKeysHashable(cache: map<CacheKey, Stored>, underlying: Source, key: CacheKey)
    requires AllHashable(cache)
    ensures AllHashable(Fetch(cache, underlying, key).1)
  {
  }

  /** A hit on a stored series returns it and leaves the cache alone; the
      source is not consulted, whatever it would answer. */
  lemma HitReturnsStoredSeries(cache: map<CacheKey, Stored>, underlying: Source, other: Source, key: CacheKey)
    requires AllHashable(cache)
    requires key in cache && cache[key].StoredSeries?
    ensures Fetch(cache, underlying, key) == (Ok(Some(cache[key].series)), cache)
    ensures Fetch(cache, underlying, key) == Fetch(cache, other, key)
  {
  }

  /** A hit on anything but a series, a stored null included, answers
      null. */
  lemma HitOnNonSeriesIsNull(cache: map<CacheKey, Stored>, underlying: Source, key: CacheKey)
    requires AllHashable(cache)
    requires key in cache && !cache[key].StoredSeries?
    ensures Fetch(cache, underlying, key).0 == Ok(None)
    ensures Fetch(cache, underlying, key).1 == cache
  {
  }

  /** A miss on a hashable key answers what the source answers and stores
      it under the key, leaving every other key as it was. */
  lemma MissStoresAnswer(cache: map<CacheKey, Stored>, underlying: Source, key: CacheKey)
    requires Hashable(key) && key !in cache
    ensures Fetch(cache, underlying, key).0 == Ok(underlying(key.dsids, key.dataSource, key.dataProvider, key.field))
    ensures key in Fetch(cache, underlying, key).1
    ensures Fetch(cache, underlying, key).1[key] == Store(Fetch(cache, underlying, key).0.value)
    ensures forall k | k in cache :: k in Fetch(cache, underlying, key).1 && Fetch(cache, underlying, key).1[k] == cache[k]
    ensures Fetch(cache, underlying, key).1.Keys == cache.Keys + {key}
  {
  }

  /** Two lookups with the same key answer the same, and the second leaves
      the cache as the first left it. */
  lemma RepeatedLookupAgrees(cache: map<CacheKey, Stored>, underlying: Source, key: CacheKey)
    ensures var (first, after) := Fetch(cache, underlying, key);
            Fetch(after, underlying, key) == (first, after)
  {
    if Hashable(key) && key !in cache {
      var ts := underlying(key.dsids, key.dataSource, key.dataProvider, key.field);
      var after := cache[key := Store(ts)];
      assert after[key] == Store(ts);
    }
  }

  /** A ranged lookup keeps exactly the dates between start and end, both
      included, with their values. */
  lemma SubSeriesExact(ts: TimeSeries, start: Date, end: Date, d: Date)
    ensures d in SubSeries(ts, start, end) <==> d in ts && !IsAfter(start, d) && !IsAfter(d, end)
    ensures d in SubSeries(ts, start, end) ==> SubSeries(ts, start, end)[d] == ts[d]
  {
  }

  /** Both ends are kept when present and in order. */
  lemma SubSeriesKeepsEnds(ts: TimeSeries, start: Date, end: Date)
    requires start in ts && end in ts && !IsAfter(start, end)
    ensures start in SubSeries(ts, start, end) && end in SubSeries(ts, start, end)
  {
    IsAfterTotal(start, end);
  }

  /** Cutting twice to the same range changes nothing more. */
  lemma SubSeriesIdempotent(ts: TimeSeries, start: Date, end: Date)
    ensures SubSeries(SubSeries(ts, start, end), start, end) == SubSeries(ts, start, end)
  {
  }

  /** Equal keys hash equally. */
  lemma EqualKeysHashEqually(a: CacheKey, b: CacheKey, bundleHash: IdentifierBundle -> bv32)
    requires KeyEquals(a, KeyValue(b))
    ensures KeyHash(a, bundleHash) == KeyHash(b, bundleHash)
  {
  }

  /** The hash ignores the data source and the data provider. */
  lemma HashIgnoresSourceAndProvider(k: CacheKey, dataSource: Option<string>, dataProvider: Option<string>,
                                     bundleHash: IdentifierBundle -> bv32)
    ensures KeyHash(k.(dataSource := dataSource, dataProvider := dataProvider), bundleHash) == KeyHash(k, bundleHash)
  {
  }
}
