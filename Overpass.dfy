/**
 * The browser's bookkeeping around the Overpass map service
 * (`src/services/overpassService.ts`): a per-hour request counter kept in
 * local storage, a gate that always lets requests through, and a 24-hour
 * cache of the last buildings answer and the last roads answer.
 *
 * The current hour (`new Date().getHours()`) and the clock (`Date.now()`)
 * are parameters. The cached answers are values of a type parameter `D`:
 * the JSON text they are stored as is not modelled.
 */
module Overpass {
  import opened Text
  import opened Numbers

  /** The hourly limit the usage report states; the gate does not enforce it. */
  const MaxRequestsPerHour: int := 999999
  const CacheExpirationMs: int := 24 * 60 * 60 * 1000

  const BuildingsCacheKey: string := "overpass_buildings_cache"
  const RoadsCacheKey: string := "overpass_roads_cache"

  // ---------------------------------------------------------- the counter

  /**
   * The two local-storage entries the counter uses, `overpass_request_hour`
   * and `overpass_hourly_request_count`; `None` is an entry that is not there.
   */
  datatype HourCounter = HourCounter(hour: Option<string>, count: Option<string>)

  /** Whether `loadHourlyRequestCount` trusts the stored count: both entries present and the stored hour reads as this hour. */
  predicate CountIsThisHour(counter: HourCounter, hour: int) {
    Stored(counter.hour) && Stored(counter.count) && ParseInt(counter.hour.value) == Some(hour)
  }

  /** The count `loadHourlyRequestCount` returns. */
  function HourlyCount(counter: HourCounter, hour: int): (c: Count)
    ensures !CountIsThisHour(counter, hour) ==> c == Some(0)
  {
    if CountIsThisHour(counter, hour) then ParseInt(counter.count.value) else Some(0)
  }

  /** The entries after `saveHourlyRequestCount(c)` in hour `hour`; they read back as `c`. */
  function SavedCounter(hour: int, c: Count): (s: HourCounter)
    ensures CountIsThisHour(s, hour) && HourlyCount(s, hour) == c
  {
    CountTextRoundTrip(c);
    IntTextRoundTrip(hour);
    HourCounter(Some(IntText(hour)), Some(CountText(c)))
  }

  /** The entries after `loadHourlyRequestCount`: reset to zero for this hour unless they hold this hour's count. */
  function LoadedCounter(counter: HourCounter, hour: int): (s: HourCounter)
    ensures CountIsThisHour(s, hour)
    ensures HourlyCount(s, hour) == HourlyCount(counter, hour)
    ensures CountIsThisHour(counter, hour) ==> s == counter
  {
    if CountIsThisHour(counter, hour) then counter else SavedCounter(hour, Some(0))
  }

  /** A count saved in another hour is forgotten: the next load finds zero. */
  lemma NewHourResets(earlier: int, hour: int, c: Count)
    requires earlier != hour
    ensures HourlyCount(SavedCounter(earlier, c), hour) == Some(0)
  {
    IntTextRoundTrip(earlier);
  }

  /** Two requests tracked in the same hour add two to the count. */
  lemma TrackTwice(counter: HourCounter, hour: int)
    ensures HourlyCount(SavedCounter(hour, Inc(HourlyCount(SavedCounter(hour, Inc(HourlyCount(counter, hour))), hour))), hour)
         == Inc(Inc(HourlyCount(counter, hour)))
  {
  }

  // ------------------------------------------------------------ the cache

  /** The two kinds of answer the cache holds. */
  datatype Kind = BuildingsData | RoadsData

  /** The local-storage key of a kind's cache entry. */
  function CacheKeyOf(kind: Kind): string {
    if kind == BuildingsData then BuildingsCacheKey else RoadsCacheKey
  }

  /** Buildings and roads are cached under different keys. */
  lemma KeysDistinct()
    ensures CacheKeyOf(BuildingsData) != CacheKeyOf(RoadsData)
  {
    assert BuildingsCacheKey[9] == 'b' && RoadsCacheKey[9] == 'r';
  }

  /** A stored entry: the answer and when it was stored. */
  datatype Cached<D> = Cached(data: D, timestamp: int)

  /** What `getCachedOverpassData(kind)` returns at `now`; `None` is null. */
  function Lookup<D>(cache: map<string, Cached<D>>, kind: Kind, now: int): (r: Option<D>)
    ensures r.Some? <==> CacheKeyOf(kind) in cache && now - cache[CacheKeyOf(kind)].timestamp < CacheExpirationMs
    ensures r.Some? ==> r.value == cache[CacheKeyOf(kind)].data
  {
    var key := CacheKeyOf(kind);
    if key in cache && now - cache[key].timestamp < CacheExpirationMs then Some(cache[key].data) else None
  }

  /** The cache after `cacheOverpassData(kind, data)` at `now`. */
  function Put<D>(cache: map<string, Cached<D>>, kind: Kind, data: D, now: int): (r: map<string, Cached<D>>)
    ensures r.Keys == cache.Keys + {CacheKeyOf(kind)}
    ensures forall k :: k in cache && k != CacheKeyOf(kind) ==> r[k] == cache[k]
  {
    cache[CacheKeyOf(kind) := Cached(data, now)]
  }

  /** An answer cached less than a day ago is served back. */
  lemma CachedIsServed<D>(cache: map<string, Cached<D>>, kind: Kind, data: D, stored: int, now: int)
    requires now - stored < CacheExpirationMs
    ensures Lookup(Put(cache, kind, data, stored), kind, now) == Some(data)
  {
  }

  /** An answer cached a day or more ago is not served. */
  lemma CachedExpires<D>(cache: map<string, Cached<D>>, kind: Kind, data: D, stored: int, now: int)
    requires now - stored >= CacheExpirationMs
    ensures Lookup(Put(cache, kind, data, stored), kind, now) == None
  {
  }

  /** Caching one kind leaves what the other kind serves unchanged. */
  lemma CachingIsPerKind<D>(cache: map<string, Cached<D>>, kind: Kind, other: Kind, data: D, stored: int, now: int)
    requires kind != other
    ensures Lookup(Put(cache, kind, data, stored), other, now) == Lookup(cache, other, now)
  {
    KeysDistinct();
  }

  // ---------------------------------------------------------- the service

  /** The service's state: the counter's and the cache's local-storage entries. */
  class Service<D> {
    var counter: HourCounter
    var cache: map<string, Cached<D>>

    constructor (counter0: HourCounter, cache0: map<string, Cached<D>>)
      ensures counter == counter0 && cache == cache0
    {
      counter, cache := counter0, cache0;
    }

    /** `loadHourlyRequestCount`. */
    method LoadHourlyRequestCount(hour: int) returns (count: Count)
      modifies this
      ensures count == HourlyCount(old(counter), hour)
      ensures counter == LoadedCounter(old(counter), hour) && cache == old(cache)
    {
      if Stored(counter.hour) && Stored(counter.count) {
        if ParseInt(counter.hour.value) == Some(hour) {
          return ParseInt(counter.count.value);
        }
      }
      counter := SavedCounter(hour, Some(0));
      return Some(0);
    }

    /** `checkOverpassRateLimit`: loads the count for its side effect and always allows. */
    method CheckOverpassRateLimit(hour: int) returns (ok: bool)
      modifies this
      ensures ok
      ensures counter == LoadedCounter(old(counter), hour) && cache == old(cache)
    {
      var _ := LoadHourlyRequestCount(hour);
      ok := true;
    }

    /** `trackOverpassRequest`: stores this hour's count plus one. */
    method TrackOverpassRequest(hour: int)
      modifies this
      ensures counter == SavedCounter(hour, Inc(HourlyCount(old(counter), hour)))
      ensures HourlyCount(counter, hour) == Inc(HourlyCount(old(counter), hour))
      ensures cache == old(cache)
    {
      var hourlyCount := LoadHourlyRequestCount(hour);
      counter := SavedCounter(hour, Inc(hourlyCount));
    }

    /** `getOverpassUsageStats`. */
    method GetOverpassUsageStats(hour: int) returns (hourlyCount: Count, hourlyLimit: int)
      modifies this
      ensures hourlyCount == HourlyCount(old(counter), hour) && hourlyLimit == MaxRequestsPerHour
      ensures counter == LoadedCounter(old(counter), hour) && cache == old(cache)
    {
      hourlyCount := LoadHourlyRequestCount(hour);
      hourlyLimit := 999999;
    }

    /** `getCachedOverpassData`: the kind's answer if it was cached less than a day ago. */
    method GetCachedOverpassData(kind: Kind, now: int) returns (r: Option<D>)
      ensures r.Some? <==> CacheKeyOf(kind) in cache && now - cache[CacheKeyOf(kind)].timestamp < CacheExpirationMs
      ensures r.Some? ==> r.value == cache[CacheKeyOf(kind)].data
    {
      var cacheKey := if kind == BuildingsData then BuildingsCacheKey else RoadsCacheKey;
      if cacheKey in cache {
        var entry := cache[cacheKey];
        if now - entry.timestamp < CacheExpirationMs {
          return Some(entry.data);
        }
      }
      return None;
    }

    /** `cacheOverpassData`: stores the answer with the current time under the kind's key. */
    method CacheOverpassData(kind: Kind, data: D, now: int)
      modifies this
      ensures cache == Put(old(cache), kind, data, now) && counter == old(counter)
    {
      var cacheKey := if kind == BuildingsData then BuildingsCacheKey else RoadsCacheKey;
      cache := cache[cacheKey := Cached(data, now)];
    }
  }
}
