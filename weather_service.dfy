/**
  `WeatherService` (bot/services/weather/get_data.py): an object owning the
  TTL cache, whose `get_weather` consults the cache and, on a miss, runs
  the retry loop and stores what it got.

  Note that a cached absence is not a hit: `_get_cache` returns None both
  for a missing key and for a stored None, and `get_weather` treats every
  None as a miss, so a negative entry only occupies its slot and never
  spares a request, although the comment on it says it is there to keep a failing location
  from being re-requested in a tight loop.
  `GetWeatherSpec` and the class follow the code; `IntendedGetWeather`
  serves a fresh negative entry as the comment intends.
*/
module WeatherServiceModel {
  import opened Wrappers
  import opened WeatherReport
  import opened WeatherCache
  import opened WeatherFetch

  /** What one `get_weather` call returns and leaves behind. */
  datatype Served = Served(
    report: Option<Report>,
    attempts: nat,
    sleeps: seq<real>,
    cache: Cache)

  /**
    One `get_weather(lat, lon)` call at time `now`, as a function of the
    cache before it: a report found in the cache is returned as it is;
    otherwise the key ends up holding whatever the call returns; no key
    other than this one appears.
  */
  function GetWeatherSpec(cache: Cache, ttl: int, maxRetries: int, backoff: real,
                          lat: real, lon: real, now: real, env: nat -> Attempt): (s: Served)
    ensures var hit := Lookup(cache, KeyOf(lat, lon), now, ttl);
            hit.Some? ==> s == Served(hit, 0, [], cache)
    ensures Lookup(cache, KeyOf(lat, lon), now, ttl).None? ==>
              KeyOf(lat, lon) in s.cache && s.cache[KeyOf(lat, lon)].report == s.report
    ensures s.report.Some? ==> KeyOf(lat, lon) in s.cache && s.cache[KeyOf(lat, lon)].report == s.report
    ensures s.cache.Keys <= cache.Keys + {KeyOf(lat, lon)}
  {
    var key := KeyOf(lat, lon);
    var cached := Lookup(cache, key, now, ttl);
    var looked := AfterLookup(cache, key, now, ttl);
    if cached.Some? then Served(cached, 0, [], looked)
    else
      var f := Fetch(env, maxRetries, backoff, now);
      Served(f.report, f.attempts, f.sleeps, Store(looked, key, f.storedAt, f.report))
  }

  class WeatherService {
    const cacheTtl: int
    const maxRetries: int
    const backoff: real
    var cache: Cache

    /** `__init__`: the tunables, and an empty cache. */
    constructor (cacheTtl: int, maxRetries: int, backoffFactor: real)
      ensures this.cacheTtl == cacheTtl && this.maxRetries == maxRetries
      ensures backoff == backoffFactor
      ensures cache == map[]
    {
      this.cacheTtl := cacheTtl;
      this.maxRetries := maxRetries;
      this.backoff := backoffFactor;
      cache := map[];
    }

    /** `_get_cache`: a fresh entry's value, or None; a stale entry is deleted. */
    method GetCache(lat: real, lon: real, now: real) returns (r: Option<Report>)
      modifies this
      ensures r == Lookup(old(cache), KeyOf(lat, lon), now, cacheTtl)
      ensures cache == AfterLookup(old(cache), KeyOf(lat, lon), now, cacheTtl)
    {
      var key := KeyOf(lat, lon);
      if key !in cache {
        return None;
      }
      var item := cache[key];
      if now - item.storedAt > cacheTtl as real {
        cache := cache - {key};
        return None;
      }
      return item.report;
    }

    /** `_set_cache`: the rounded key now holds (now, report). */
    method SetCache(lat: real, lon: real, report: Option<Report>, now: real)
      modifies this
      ensures cache == Store(old(cache), KeyOf(lat, lon), now, report)
    {
      var key := KeyOf(lat, lon);
      cache := cache[key := Entry(now, report)];
    }

    /**
      `get_weather`: a cache hit is returned without a request; otherwise up
      to `maxRetries` attempts are made, and whatever the loop ends with
      (a report or None) is stored for the key. `sleeps` records the pauses.
    */
    method GetWeather(lat: real, lon: real, now: real, env: nat -> Attempt)
      returns (r: Option<Report>, attempts: nat, sleeps: seq<real>)
      modifies this
      ensures var s := GetWeatherSpec(old(cache), cacheTtl, maxRetries, backoff, lat, lon, now, env);
              r == s.report && attempts == s.attempts && sleeps == s.sleeps && cache == s.cache
    {
      ghost var spec := GetWeatherSpec(cache, cacheTtl, maxRetries, backoff, lat, lon, now, env);
      var cached := GetCache(lat, lon, now);
      if cached.Some? {
        return cached, 0, [];
      }
      ghost var looked := cache;
      ghost var full := Fetch(env, maxRetries, backoff, now);
      assert spec == Served(full.report, full.attempts, full.sleeps,
                            Store(looked, KeyOf(lat, lon), full.storedAt, full.report));
      var attempt := 1;
      var stamp := now;
      attempts, sleeps := 0, [];
      while attempt <= maxRetries
        invariant attempt >= 1 && attempts == attempt - 1
        invariant cache == looked
        invariant var rest := Retry(env, attempt, maxRetries, backoff, stamp);
                  full == rest.(sleeps := sleeps + rest.sleeps)
        decreases maxRetries - attempt
      {
        var a := env(attempt);
        ghost var rest := Retry(env, attempt, maxRetries, backoff, stamp);
        attempts := attempt;
        stamp := a.clock;
        match a.outcome {
          case Success(report) =>
            assert rest == Fetched(Some(report), attempt, [], a.clock);
            SetCache(lat, lon, Some(report), a.clock);
            return Some(report), attempts, sleeps;
          case MissingPayload =>
            assert rest == Fetched(None, attempt, [], a.clock);
            SetCache(lat, lon, None, a.clock);
            return None, attempts, sleeps;
          case HttpStatus(code) =>
            if 400 <= code < 500 {
              assert rest == Fetched(None, attempt, [], a.clock);
              break;
            }
          case TransportError =>
          case OtherError =>
        }
        assert !Terminal(a.outcome);
        ghost var pause := if attempt < maxRetries then [Pause(backoff, attempt, a.clock)] else [];
        ghost var next := Retry(env, attempt + 1, maxRetries, backoff, a.clock);
        assert rest == next.(sleeps := pause + next.sleeps);
        if attempt < maxRetries {
          sleeps := sleeps + [Pause(backoff, attempt, a.clock)];
        }
        attempt := attempt + 1;
        assert full == next.(sleeps := sleeps + next.sleeps);
      }
      SetCache(lat, lon, None, stamp);
      return None, attempts, sleeps;
    }
  }

  /** A non-None cache hit returns the cached report, makes no request and changes nothing. */
  lemma CacheHitMakesNoRequest(cache: Cache, ttl: int, maxRetries: int, backoff: real,
                               lat: real, lon: real, now: real, env: nat -> Attempt)
    requires var key := KeyOf(lat, lon);
             key in cache && cache[key].report.Some? && now - cache[key].storedAt <= ttl as real
    ensures var s := GetWeatherSpec(cache, ttl, maxRetries, backoff, lat, lon, now, env);
            s.report == cache[KeyOf(lat, lon)].report && s.attempts == 0 && s.sleeps == [] && s.cache == cache
  {
  }

  /**
    Every call that is not a hit stores its result for the key, stamped
    with the clock after the last attempt, and touches no other key except
    that the lookup may have dropped nothing but this key's stale entry.
  */
  lemma MissStoresResult(cache: Cache, ttl: int, maxRetries: int, backoff: real,
                         lat: real, lon: real, now: real, env: nat -> Attempt)
    requires Lookup(cache, KeyOf(lat, lon), now, ttl).None?
    ensures var s := GetWeatherSpec(cache, ttl, maxRetries, backoff, lat, lon, now, env);
            var key := KeyOf(lat, lon);
            && key in s.cache && s.cache[key].report == s.report
            && s.cache.Keys == cache.Keys + {key}
            && (forall k :: k in cache && k != key ==> s.cache[k] == cache[k])
            && (maxRetries >= 1 ==> s.cache[key].storedAt == env(s.attempts).clock)
  {
    RetryShape(env, 1, maxRetries, backoff, now);
  }

  /**
    A fresh negative entry does not spare a request: with at least one
    retry allowed, the call goes upstream again.
  */
  lemma NegativeEntryRefetches(cache: Cache, ttl: int, maxRetries: int, backoff: real,
                               lat: real, lon: real, now: real, env: nat -> Attempt)
    requires maxRetries >= 1
    requires var key := KeyOf(lat, lon);
             key in cache && cache[key].report == None && now - cache[key].storedAt <= ttl as real
    ensures GetWeatherSpec(cache, ttl, maxRetries, backoff, lat, lon, now, env).attempts >= 1
  {
    AttemptBounds(env, maxRetries, backoff, now);
  }

  /**
    `get_weather` as the comment on its negative entry intends: any fresh
    entry, a stored None included, answers the call without a request.
  */
  function IntendedGetWeather(cache: Cache, ttl: int, maxRetries: int, backoff: real,
                              lat: real, lon: real, now: real, env: nat -> Attempt): (s: Served)
    ensures var key := KeyOf(lat, lon);
            key in cache && !Expired(cache[key], now, ttl) ==> s == Served(cache[key].report, 0, [], cache)
    ensures var key := KeyOf(lat, lon);
            !(key in cache && !Expired(cache[key], now, ttl)) ==>
              s == GetWeatherSpec(cache, ttl, maxRetries, backoff, lat, lon, now, env)
  {
    var key := KeyOf(lat, lon);
    if key in cache && !Expired(cache[key], now, ttl) then Served(cache[key].report, 0, [], cache)
    else GetWeatherSpec(cache, ttl, maxRetries, backoff, lat, lon, now, env)
  }

  /**
    With the intended lookup, a call that fails leaves an entry that spares
    every request for the same key until it expires.
  */
  lemma IntendedNegativeEntrySparesRequests(cache: Cache, ttl: int, maxRetries: int, backoff: real,
                                            lat: real, lon: real, now: real, env: nat -> Attempt,
                                            now': real, env': nat -> Attempt)
    requires var s := IntendedGetWeather(cache, ttl, maxRetries, backoff, lat, lon, now, env);
             s.report == None && now' - s.cache[KeyOf(lat, lon)].storedAt <= ttl as real
    ensures var s := IntendedGetWeather(cache, ttl, maxRetries, backoff, lat, lon, now, env);
            var s' := IntendedGetWeather(s.cache, ttl, maxRetries, backoff, lat, lon, now', env');
            s'.report == None && s'.attempts == 0 && s'.cache == s.cache
  {
  }

  /** An entry strictly older than the TTL is re-queried, whatever it holds. */
  lemma ExpiredEntryRefetches(cache: Cache, ttl: int, maxRetries: int, backoff: real,
                              lat: real, lon: real, now: real, env: nat -> Attempt)
    requires maxRetries >= 1
    requires var key := KeyOf(lat, lon);
             key in cache && now - cache[key].storedAt > ttl as real
    ensures GetWeatherSpec(cache, ttl, maxRetries, backoff, lat, lon, now, env).attempts >= 1
  {
    AttemptBounds(env, maxRetries, backoff, now);
  }

  /**
    Two calls for coordinates with the same rounded key: when the first
    returns a report and the second comes no more than ttl after that
    report was stored, the second returns the same report without a
    request.
  */
  lemma RepeatWithinTtlIsServedFromCache(cache: Cache, ttl: int, maxRetries: int, backoff: real,
                                         lat: real, lon: real, now: real, env: nat -> Attempt,
                                         lat': real, lon': real, now': real, env': nat -> Attempt)
    requires KeyOf(lat', lon') == KeyOf(lat, lon)
    requires var s := GetWeatherSpec(cache, ttl, maxRetries, backoff, lat, lon, now, env);
             s.report.Some? && now' - s.cache[KeyOf(lat, lon)].storedAt <= ttl as real
    ensures var s := GetWeatherSpec(cache, ttl, maxRetries, backoff, lat, lon, now, env);
            var s' := GetWeatherSpec(s.cache, ttl, maxRetries, backoff, lat', lon', now', env');
            s'.report == s.report && s'.attempts == 0 && s'.cache == s.cache
  {
  }
}
