/**
 * The browser's client for the language-model endpoints
 * (`src/services/llmService.ts`): a sliding one-minute window of request
 * times, a per-day request counter kept in local storage, and a two-hour
 * cache of building summaries.
 *
 * The clock (`Date.now()`), the day (`new Date().toDateString()`) and the
 * server's answer are parameters; local storage is a map from keys to texts.
 */
module LlmService {
  import opened Text
  import opened Numbers
  import opened Buildings

  const MaxRequestsPerMinute: int := 10
  const MaxRequestsPerDay: int := 100
  const MinuteMs: int := 60 * 1000
  const CacheExpirationMs: int := 2 * 60 * 60 * 1000

  const DailyLimitMessage: string := "Daily API limit exceeded. Please try again tomorrow."
  const MinuteLimitMessage: string := "Rate limit exceeded. Please try again in a minute."

  // --------------------------------------------------------------- storage

  /**
   * The two local-storage entries the counter uses, `api_request_date` and
   * `api_daily_request_count`; `None` is an entry that is not there.
   */
  datatype DayCounter = DayCounter(date: Option<string>, count: Option<string>)

  /** Whether `loadDailyRequestCount` trusts the stored count: both entries present and the date is today. */
  predicate CountIsToday(storage: DayCounter, today: string) {
    Stored(storage.date) && Stored(storage.count) && storage.date.value == today
  }

  /** The count `loadDailyRequestCount` returns. */
  function DailyCount(storage: DayCounter, today: string): (c: Count)
    ensures !CountIsToday(storage, today) ==> c == Some(0)
  {
    if CountIsToday(storage, today) then ParseInt(storage.count.value) else Some(0)
  }

  /** The storage after `saveDailyRequestCount(c)`: today's date and the count's text. */
  function SavedStorage(today: string, c: Count): (s: DayCounter)
    ensures today != "" ==> CountIsToday(s, today) && DailyCount(s, today) == c
  {
    CountTextRoundTrip(c);
    DayCounter(Some(today), Some(CountText(c)))
  }

  /** The storage after `loadDailyRequestCount`: reset to zero for today unless it holds today's count. */
  function LoadedStorage(storage: DayCounter, today: string): (s: DayCounter)
    ensures today != "" ==> CountIsToday(s, today)
    ensures DailyCount(s, today) == DailyCount(storage, today)
    ensures CountIsToday(storage, today) ==> s == storage
  {
    if CountIsToday(storage, today) then storage else SavedStorage(today, Some(0))
  }

  /** Loading twice is loading once. */
  lemma LoadIdempotent(storage: DayCounter, today: string)
    ensures LoadedStorage(LoadedStorage(storage, today), today) == LoadedStorage(storage, today)
  {
  }

  /** A count stored on another day is forgotten: the next load finds zero. */
  lemma NewDayResets(yesterday: string, today: string, c: Count)
    requires yesterday != today
    ensures DailyCount(SavedStorage(yesterday, c), today) == Some(0)
  {
  }

  // ----------------------------------------------------------------- window

  /** The window after dropping, from the front, every time before `cutoff`. */
  function Pruned(ts: seq<int>, cutoff: int): (r: seq<int>)
    ensures |r| <= |ts| && r == ts[|ts| - |r|..]
    ensures r == [] || r[0] >= cutoff
    ensures forall i :: 0 <= i < |ts| - |r| ==> ts[i] < cutoff
  {
    if ts != [] && ts[0] < cutoff then
      var r := Pruned(ts[1..], cutoff);
      assert forall i :: 1 <= i < |ts| - |r| ==> ts[i] == ts[1..][i - 1];
      r
    else ts
  }

  predicate Sorted(ts: seq<int>) {
    forall i, j :: 0 <= i <= j < |ts| ==> ts[i] <= ts[j]
  }

  /** The times at or after `cutoff`, wherever they are: the window the pruning means to keep. */
  function Recent(ts: seq<int>, cutoff: int): (r: seq<int>)
    ensures |r| <= |ts|
  {
    if ts == [] then [] else (if ts[0] >= cutoff then [ts[0]] else []) + Recent(ts[1..], cutoff)
  }

  /** Recent times of a sorted window are its tail from the first recent one. */
  lemma {:induction false} RecentOfSortedTail(ts: seq<int>, cutoff: int)
    requires Sorted(ts) && (ts == [] || ts[0] >= cutoff)
    ensures Recent(ts, cutoff) == ts
  {
    if ts != [] {
      RecentOfSortedTail(ts[1..], cutoff);
    }
  }

  /** On a sorted window, pruning from the front keeps exactly the recent times. */
  lemma {:induction false} PrunedSorted(ts: seq<int>, cutoff: int)
    requires Sorted(ts)
    ensures Pruned(ts, cutoff) == Recent(ts, cutoff)
  {
    if ts != [] {
      if ts[0] < cutoff {
        PrunedSorted(ts[1..], cutoff);
      } else {
        RecentOfSortedTail(ts, cutoff);
      }
    }
  }

  /** Pruning twice with the same cutoff is pruning once. */
  lemma PrunedIdempotent(ts: seq<int>, cutoff: int)
    ensures Pruned(Pruned(ts, cutoff), cutoff) == Pruned(ts, cutoff)
  {
  }

  /** A time no earlier than every time in a sorted window keeps it sorted, pruned or not. */
  lemma AppendKeepsSorted(ts: seq<int>, now: int, cutoff: int)
    requires Sorted(ts) && forall i :: 0 <= i < |ts| ==> ts[i] <= now
    ensures Sorted(ts + [now]) && Sorted(Pruned(ts, cutoff))
  {
    SortedAppend(ts, now);
    SortedSuffix(ts, |ts| - |Pruned(ts, cutoff)|);
  }

  lemma SortedAppend(ts: seq<int>, now: int)
    requires Sorted(ts) && forall i :: 0 <= i < |ts| ==> ts[i] <= now
    ensures Sorted(ts + [now])
  {
    var s := ts + [now];
    forall i, j | 0 <= i <= j < |s| ensures s[i] <= s[j] {
      if j < |ts| {
        assert s[i] == ts[i] && s[j] == ts[j];
      } else {
        assert s[i] == if i < |ts| then ts[i] else now;
      }
    }
  }

  lemma SortedSuffix(ts: seq<int>, k: nat)
    requires Sorted(ts) && k <= |ts|
    ensures Sorted(ts[k..])
  {
    var s := ts[k..];
    forall i, j | 0 <= i <= j < |s| ensures s[i] <= s[j] {
      assert s[i] == ts[k + i] && s[j] == ts[k + j];
    }
  }

  /** Both limits hold: fewer than ten requests in the window and a daily count below one hundred. */
  predicate WithinLimits(windowSize: int, daily: Count) {
    windowSize < MaxRequestsPerMinute && daily.Some? && daily.value < MaxRequestsPerDay
  }

  // --------------------------------------------------------------- summaries

  datatype Summary = Summary(summary: string, constructionCost: string, buildingType: string,
                             urbanSignificance: string, assessedValue: string, zoning: string)

  datatype CacheEntry = CacheEntry(data: Summary, timestamp: int)

  /** What `getBuildingSummary` resolves to, or the message it rejects with. */
  datatype Outcome = Ok(data: Summary) | Err(message: string)

  /** What `sendQuery` and `queryBuildings` resolve to, or the message they throw. */
  datatype Answer<T> = Answered(value: T) | Refused(message: string)

  /** The body of `/api/query`'s answer. */
  datatype QueryResponse = QueryResponse(response: string, sources: seq<string>)

  /** The body of `/api/filter`'s answer: the filters and the explanation. */
  datatype FilterResponse = FilterResponse(filters: seq<Filter>, explanation: string)

  /** What `sendQuery` returns when the call fails. */
  const QueryFallback: QueryResponse :=
    QueryResponse("I apologize, but I am unable to process your query at this time. Please try again later.", [])

  /** What `queryBuildings` returns when the call fails. */
  const FilterFallback: FilterResponse :=
    FilterResponse([], "Unable to process your query at this time. Please try again later.")

  datatype UsageStats = UsageStats(minuteCount: int, dailyCount: Count, minuteLimit: int, dailyLimit: int)

  /** The message for a refused request: the daily one when the day's count is spent. */
  function LimitMessage(stats: UsageStats): (m: string)
    ensures m == DailyLimitMessage <==> stats.dailyCount.Some? && stats.dailyCount.value >= stats.dailyLimit
    ensures m in {DailyLimitMessage, MinuteLimitMessage}
  {
    if stats.dailyCount.Some? && stats.dailyCount.value >= stats.dailyLimit then DailyLimitMessage else MinuteLimitMessage
  }

  /** `v?.toString()` is truthy. */
  predicate HasText(bd: UserData, k: string) {
    k in bd && ToJsString(bd[k]) != ""
  }

  /** `id?.toString() || name?.toString() || "unknown"`. */
  function BuildingId(bd: UserData): (r: string)
    ensures r != ""
    ensures HasText(bd, "id") ==> r == ToJsString(bd["id"])
  {
    if HasText(bd, "id") then ToJsString(bd["id"])
    else if HasText(bd, "name") then ToJsString(bd["name"])
    else "unknown"
  }

  /** `building || "unknown"`, as text. */
  function BuildingTypeText(bd: UserData): (r: string)
    ensures r != ""
  {
    if "building" in bd && Truthy(bd["building"]) then
      var v := bd["building"];
      assert v.Num? ==> v.n.mant != 0;
      NonZeroText(v);
      ToJsString(v)
    else "unknown"
  }

  /** The text of a truthy value is not empty. */
  lemma NonZeroText(v: Value)
    requires Truthy(v)
    ensures ToJsString(v) != ""
  {
    if v.Num? {
      var c := Canonical(v.n);
      if c.scale == 0 {
        assert |IntText(c.mant)| >= 1;
      } else {
        var a := if c.mant < 0 then -c.mant else c.mant;
        assert |FixedText(c)| >= 1;
      }
    }
  }

  /** The cache key: the building's id and its type. */
  function CacheKey(bd: UserData): (r: string)
    ensures StartsWith(r, BuildingId(bd)) && |r| > |BuildingId(bd)| + 1 && r[|BuildingId(bd)|] == '-'
  {
    var id := BuildingId(bd);
    var key := id + "-" + BuildingTypeText(bd);
    assert key[..|id|] == id;
    key
  }

  /** The key never equals the bare id, so both entries are always written. */
  lemma KeyIsNotId(bd: UserData)
    ensures CacheKey(bd) != BuildingId(bd)
  {
  }

  /** `String(Number(levels) * 500000)`. */
  function LevelsValueText(levels: Value): string {
    match ToNumber(levels)
    case None => "NaN"
    case Some(d) => JsNumberText(Times(d, 500000))
  }

  /** A value that is there and truthy. */
  predicate Given(v: Option<Value>) {
    v.Some? && Truthy(v.value)
  }

  /** The fallback's assessed value: `$` and `levels * 500000` when levels are given, else a fixed figure. */
  function AssessedValue(levels: Option<Value>): string {
    if Given(levels) then "$" + LevelsValueText(levels.value) else "$1,500,000"
  }

  /**
   * The summary used when the request fails, from the building's `building`
   * and `building:levels` values; `None` is the `TypeError` that
   * `building?.toLowerCase()` raises when `building` is not text.
   */
  function FallbackSummary(building: Option<Value>, levels: Option<Value>): (r: Option<Summary>)
    ensures r.None? <==> building.Some? && !building.value.Str?
    ensures r.Some? ==> (r.value.zoning == "RC-G" <==> building.Some? && Lower(building.value.s) == "residential")
    ensures r.Some? && !Given(levels) ==> r.value.assessedValue == "$1,500,000"
    ensures r.Some? && Given(levels) ==> StartsWith(r.value.assessedValue, "$")
    ensures r.Some? ==> r.value.assessedValue == AssessedValue(levels)
    ensures r.Some? ==> r.value.buildingType == if Given(building) then building.value.s else "Commercial"
  {
    if building.Some? && !building.value.Str? then None
    else
      Some(Summary(
        "Unable to generate summary at this time.",
        "Unknown",
        if Given(building) then building.value.s else "Commercial",
        "This building is part of the urban landscape.",
        AssessedValue(levels),
        if building.Some? && Lower(building.value.s) == "residential" then "RC-G" else "C-COR1"))
  }

  /**
   * When `building:levels` holds the digits of `n`, the fallback's assessed
   * value is a dollar sign and the digits of `n * 500000`.
   */
  lemma AssessedFromLevels(n: nat)
    ensures AssessedValue(Some(Str(DigitsOf(n)))) == "$" + DigitsOf(n * 500000)
  {
    var d := DigitsOf(n);
    PyFloatWhole(d);
    DigitsOfValue(n);
    assert JsNumber(d) == PyFloat(d);
    JsNumberTextWhole(n * 500000);
  }

  /** Levels that are there but are not a number give the assessed value `$NaN`. */
  lemma AssessedNaN(levels: Value)
    requires Truthy(levels) && ToNumber(levels).None?
    ensures AssessedValue(Some(levels)) == "$NaN"
  {
    assert Given(Some(levels));
    assert LevelsValueText(levels) == "NaN";
  }

  /** The fallback for a building's data. */
  function Fallback(bd: UserData): Option<Summary> {
    FallbackSummary(Get(bd, "building"), Get(bd, "building:levels"))
  }

  /** Both entries `getBuildingSummary` writes for one answer. */
  function Stored2(cache: map<string, CacheEntry>, bd: UserData, data: Summary, now: int): map<string, CacheEntry> {
    var e := CacheEntry(data, now);
    var c := cache[CacheKey(bd) := e];
    if BuildingId(bd) != CacheKey(bd) then c[BuildingId(bd) := e] else c
  }

  /** Whether the cache serves `key` at `now`: present and younger than two hours. */
  predicate Fresh(cache: map<string, CacheEntry>, key: string, now: int) {
    key in cache && now - cache[key].timestamp < CacheExpirationMs
  }

  /** After an answer is stored, both its key and its id serve it for two hours. */
  lemma StoredIsServed(cache: map<string, CacheEntry>, bd: UserData, data: Summary, now: int, later: int)
    requires now <= later < now + CacheExpirationMs
    ensures Fresh(Stored2(cache, bd, data, now), CacheKey(bd), later)
    ensures Fresh(Stored2(cache, bd, data, now), BuildingId(bd), later)
    ensures Stored2(cache, bd, data, now)[CacheKey(bd)].data == data
    ensures Stored2(cache, bd, data, now)[BuildingId(bd)].data == data
  {
    KeyIsNotId(bd);
  }

  /** Storing an answer changes no other key. */
  lemma StoredLeavesOthers(cache: map<string, CacheEntry>, bd: UserData, data: Summary, now: int, k: string)
    requires k != CacheKey(bd) && k != BuildingId(bd)
    ensures k in Stored2(cache, bd, data, now) <==> k in cache
    ensures k in cache ==> Stored2(cache, bd, data, now)[k] == cache[k]
  {
  }

  /** Of the first five buildings, those whose key is not in the cache at all. */
  function PreloadTargets(buildings: seq<UserData>, cache: map<string, CacheEntry>): (r: seq<UserData>)
    ensures |r| <= 5
    ensures forall b :: b in r <==> b in buildings[..if |buildings| < 5 then |buildings| else 5] && CacheKey(b) !in cache
  {
    Uncached(buildings[..if |buildings| < 5 then |buildings| else 5], cache)
  }

  /** The buildings whose key is not in the cache, in order. */
  function Uncached(bs: seq<UserData>, cache: map<string, CacheEntry>): (r: seq<UserData>)
    ensures |r| <= |bs|
    ensures forall b :: b in r <==> b in bs && CacheKey(b) !in cache
  {
    if bs == [] then []
    else
      var rest := Uncached(bs[1..], cache);
      assert forall b :: b in bs <==> b == bs[0] || b in bs[1..];
      if CacheKey(bs[0]) !in cache then [bs[0]] + rest else rest
  }

  /** An expired entry still stops a building from being preloaded. */
  lemma ExpiredEntryBlocksPreload(buildings: seq<UserData>, cache: map<string, CacheEntry>, b: UserData)
    requires CacheKey(b) in cache
    ensures b !in PreloadTargets(buildings, cache)
  {
  }

  // ------------------------------------------------------------- the client

  /** The module's state: the request window, local storage and the summary cache. */
  class Client {
    var timestamps: seq<int>
    var storage: DayCounter
    var cache: map<string, CacheEntry>

    constructor (storage0: DayCounter)
      ensures timestamps == [] && storage == storage0 && cache == map[]
    {
      timestamps, storage, cache := [], storage0, map[];
    }

    /** `loadDailyRequestCount`. */
    method LoadDailyRequestCount(today: string) returns (count: Count)
      modifies this
      ensures count == DailyCount(old(storage), today)
      ensures storage == LoadedStorage(old(storage), today)
      ensures timestamps == old(timestamps) && cache == old(cache)
    {
      if Stored(storage.date) && Stored(storage.count) {
        if storage.date.value == today {
          return ParseInt(storage.count.value);
        }
      }
      storage := DayCounter(Some(today), Some("0"));
      return Some(0);
    }

    /** Drops times older than a minute from the front of the window. */
    method PruneWindow(now: int)
      modifies this
      ensures timestamps == Pruned(old(timestamps), now - MinuteMs)
      ensures storage == old(storage) && cache == old(cache)
    {
      var oneMinuteAgo := now - MinuteMs;
      while |timestamps| > 0 && timestamps[0] < oneMinuteAgo
        invariant Pruned(timestamps, oneMinuteAgo) == Pruned(old(timestamps), oneMinuteAgo)
        invariant storage == old(storage) && cache == old(cache)
        decreases |timestamps|
      {
        timestamps := timestamps[1..];
      }
    }

    /** `checkRateLimit`: prunes the window, loads the day's count, and allows the request iff both limits hold. */
    method CheckRateLimit(now: int, today: string) returns (ok: bool)
      modifies this
      ensures timestamps == Pruned(old(timestamps), now - MinuteMs)
      ensures storage == LoadedStorage(old(storage), today) && cache == old(cache)
      ensures ok <==> WithinLimits(|timestamps|, DailyCount(old(storage), today))
    {
      PruneWindow(now);
      var dailyCount := LoadDailyRequestCount(today);
      ok := |timestamps| < MaxRequestsPerMinute && dailyCount.Some? && dailyCount.value < MaxRequestsPerDay;
    }

    /** `trackRequest`: records the time and stores the day's count plus one. */
    method TrackRequest(now: int, today: string)
      modifies this
      ensures timestamps == old(timestamps) + [now]
      ensures storage == SavedStorage(today, Inc(DailyCount(old(storage), today)))
      ensures cache == old(cache)
    {
      timestamps := timestamps + [now];
      var dailyCount := LoadDailyRequestCount(today);
      storage := SavedStorage(today, Inc(dailyCount));
    }

    /** `getApiUsageStats`. */
    method GetApiUsageStats(now: int, today: string) returns (stats: UsageStats)
      modifies this
      ensures timestamps == Pruned(old(timestamps), now - MinuteMs)
      ensures storage == LoadedStorage(old(storage), today) && cache == old(cache)
      ensures stats == UsageStats(|timestamps|, DailyCount(old(storage), today), MaxRequestsPerMinute, MaxRequestsPerDay)
    {
      PruneWindow(now);
      var dailyCount := LoadDailyRequestCount(today);
      stats := UsageStats(|timestamps|, dailyCount, MaxRequestsPerMinute, MaxRequestsPerDay);
    }

    /** `isBuildingSummaryCached`. */
    predicate IsBuildingSummaryCached(key: string, now: int)
      reads this
    {
      Fresh(cache, key, now)
    }

    /** The buildings `preloadBuildingSummaries` requests. */
    function PreloadSelection(buildings: seq<UserData>): (r: seq<UserData>)
      reads this
      ensures |r| <= 5
      ensures forall b :: b in r <==> b in buildings[..if |buildings| < 5 then |buildings| else 5] && CacheKey(b) !in cache
    {
      PreloadTargets(buildings, cache)
    }

    /**
     * The shape shared by `sendQuery` and `queryBuildings`: refuse with the
     * limit's message when the rate limit says no; otherwise count the
     * request and answer with `reply`, or with `fallback` when the call fails.
     */
    method GatedRequest<T>(now: int, today: string, reply: Option<T>, fallback: T) returns (r: Answer<T>)
      modifies this
      ensures cache == old(cache)
      ensures !WithinLimits(|Pruned(old(timestamps), now - MinuteMs)|, DailyCount(old(storage), today)) ==>
        r == Refused(LimitMessage(UsageStats(|Pruned(old(timestamps), now - MinuteMs)|, DailyCount(old(storage), today), MaxRequestsPerMinute, MaxRequestsPerDay))) &&
        timestamps == Pruned(old(timestamps), now - MinuteMs) &&
        storage == LoadedStorage(old(storage), today)
      ensures WithinLimits(|Pruned(old(timestamps), now - MinuteMs)|, DailyCount(old(storage), today)) ==>
        r == Answered(if reply.Some? then reply.value else fallback) &&
        timestamps == Pruned(old(timestamps), now - MinuteMs) + [now] &&
        storage == SavedStorage(today, Inc(DailyCount(old(storage), today)))
    {
      var ok := CheckRateLimit(now, today);
      if !ok {
        PrunedIdempotent(old(timestamps), now - MinuteMs);
        LoadIdempotent(old(storage), today);
        var stats := GetApiUsageStats(now, today);
        return Refused(LimitMessage(stats));
      }
      TrackRequest(now, today);
      r := Answered(if reply.Some? then reply.value else fallback);
    }

    /** `sendQuery`: the gated request to `/api/query`. */
    method SendQuery(now: int, today: string, reply: Option<QueryResponse>) returns (r: Answer<QueryResponse>)
      modifies this
      ensures cache == old(cache)
      ensures r.Refused? <==> !WithinLimits(|Pruned(old(timestamps), now - MinuteMs)|, DailyCount(old(storage), today))
      ensures r.Refused? ==> r.message in {DailyLimitMessage, MinuteLimitMessage} && |timestamps| <= |old(timestamps)|
      ensures r.Answered? ==>
        r.value == (if reply.Some? then reply.value else QueryFallback) &&
        timestamps == Pruned(old(timestamps), now - MinuteMs) + [now]
      ensures !WithinLimits(|Pruned(old(timestamps), now - MinuteMs)|, DailyCount(old(storage), today)) ==>
        r == Refused(LimitMessage(UsageStats(|Pruned(old(timestamps), now - MinuteMs)|, DailyCount(old(storage), today), MaxRequestsPerMinute, MaxRequestsPerDay))) &&
        timestamps == Pruned(old(timestamps), now - MinuteMs) &&
        storage == LoadedStorage(old(storage), today)
      ensures WithinLimits(|Pruned(old(timestamps), now - MinuteMs)|, DailyCount(old(storage), today)) ==>
        storage == SavedStorage(today, Inc(DailyCount(old(storage), today)))
    {
      r := GatedRequest(now, today, reply, QueryFallback);
    }

    /** `queryBuildings`: the gated request to `/api/filter`. */
    method QueryBuildings(now: int, today: string, reply: Option<FilterResponse>) returns (r: Answer<FilterResponse>)
      modifies this
      ensures cache == old(cache)
      ensures r.Refused? <==> !WithinLimits(|Pruned(old(timestamps), now - MinuteMs)|, DailyCount(old(storage), today))
      ensures r.Refused? ==> r.message in {DailyLimitMessage, MinuteLimitMessage} && |timestamps| <= |old(timestamps)|
      ensures r.Answered? ==>
        r.value == (if reply.Some? then reply.value else FilterFallback) &&
        timestamps == Pruned(old(timestamps), now - MinuteMs) + [now]
      ensures !WithinLimits(|Pruned(old(timestamps), now - MinuteMs)|, DailyCount(old(storage), today)) ==>
        r == Refused(LimitMessage(UsageStats(|Pruned(old(timestamps), now - MinuteMs)|, DailyCount(old(storage), today), MaxRequestsPerMinute, MaxRequestsPerDay))) &&
        timestamps == Pruned(old(timestamps), now - MinuteMs) &&
        storage == LoadedStorage(old(storage), today)
      ensures WithinLimits(|Pruned(old(timestamps), now - MinuteMs)|, DailyCount(old(storage), today)) ==>
        storage == SavedStorage(today, Inc(DailyCount(old(storage), today)))
    {
      r := GatedRequest(now, today, reply, FilterFallback);
    }

    /**
     * `getBuildingSummary`: a fresh cached answer first, then the rate limit,
     * then a request whose answer (`reply`, or the fallback when it fails)
     * is cached under the key and the id.
     */
    method GetBuildingSummary(bd: UserData, now: int, today: string, reply: Option<Summary>) returns (r: Outcome)
      modifies this
      ensures Fresh(old(cache), CacheKey(bd), now) ==>
        r == Ok(old(cache)[CacheKey(bd)].data) &&
        timestamps == old(timestamps) && storage == old(storage) && cache == old(cache)
      ensures (!Fresh(old(cache), CacheKey(bd), now) &&
               !WithinLimits(|Pruned(old(timestamps), now - MinuteMs)|, DailyCount(old(storage), today))) ==>
        r == Err(LimitMessage(UsageStats(|Pruned(old(timestamps), now - MinuteMs)|, DailyCount(old(storage), today), MaxRequestsPerMinute, MaxRequestsPerDay))) &&
        timestamps == Pruned(old(timestamps), now - MinuteMs) && cache == old(cache) &&
        storage == LoadedStorage(old(storage), today)
      ensures (!Fresh(old(cache), CacheKey(bd), now) &&
               WithinLimits(|Pruned(old(timestamps), now - MinuteMs)|, DailyCount(old(storage), today))) ==>
        timestamps == Pruned(old(timestamps), now - MinuteMs) + [now] &&
        storage == SavedStorage(today, Inc(DailyCount(old(storage), today))) &&
        var answer := if reply.Some? then reply else Fallback(bd);
        (answer.Some? ==> r == Ok(answer.value) && cache == Stored2(old(cache), bd, answer.value, now)) &&
        (answer.None? ==> r.Err? && cache == old(cache))
    {
      var cacheKey := CacheKey(bd);
      if cacheKey in cache && now - cache[cacheKey].timestamp < CacheExpirationMs {
        return Ok(cache[cacheKey].data);
      }
      var ok := CheckRateLimit(now, today);
      if !ok {
        PrunedIdempotent(old(timestamps), now - MinuteMs);
        LoadIdempotent(old(storage), today);
        var stats := GetApiUsageStats(now, today);
        return Err(LimitMessage(stats));
      }
      TrackRequest(now, today);
      var answer := if reply.Some? then reply else Fallback(bd);
      if answer.None? {
        return Err("TypeError");
      }
      cache := Stored2(cache, bd, answer.value, now);
      r := Ok(answer.value);
    }
  }
}
