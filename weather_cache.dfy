/**
  The in-memory TTL cache of `WeatherService` (bot/services/weather/get_data.py):
  entries are keyed by the coordinates rounded to four decimal places, carry
  the monotonic time at which they were stored and either a report or the
  absence of one, and expire lazily, only when their own key is looked up.
*/
module WeatherCache {
  import opened Wrappers
  import opened WeatherReport

  /**
    Python's `round(x, 4)`, expressed in ten-thousandths: the integer nearest
    to x * 10000, a tie going to the even neighbour.
  */
  function Round4(x: real): (k: int)
    ensures (k as real) - 0.5 <= x * 10000.0 <= (k as real) + 0.5
    ensures IsTie(x, k) ==> k % 2 == 0
  {
    var y := x * 10000.0;
    var f := y.Floor;
    var d := y - f as real;
    if d < 0.5 then f
    else if d > 0.5 then f + 1
    else if f % 2 == 0 then f
    else f + 1
  }

  /** x lies exactly half-way between k and one of its neighbours (in ten-thousandths). */
  predicate IsTie(x: real, k: int)
  {
    x * 10000.0 - k as real == 0.5 || (k as real) - x * 10000.0 == 0.5
  }

  /** Round4 is the only integer within half a unit that breaks ties to even. */
  lemma Round4Unique(x: real, j: int)
    requires (j as real) - 0.5 <= x * 10000.0 <= (j as real) + 0.5
    requires IsTie(x, j) ==> j % 2 == 0
    ensures j == Round4(x)
  {
  }

  /** A value already on the four-decimal grid rounds to itself. */
  lemma Round4OnGrid(k: int)
    ensures Round4(k as real / 10000.0) == k
  {
    Round4Unique(k as real / 10000.0, k);
  }

  /** The cache key: both coordinates in ten-thousandths of a degree. */
  datatype Key = Key(lat: int, lon: int)

  /** `(round(lat, 4), round(lon, 4))`: each coordinate's nearest grid point, ties to even. */
  function KeyOf(lat: real, lon: real): (key: Key)
    ensures (key.lat as real) - 0.5 <= lat * 10000.0 <= (key.lat as real) + 0.5
    ensures (key.lon as real) - 0.5 <= lon * 10000.0 <= (key.lon as real) + 0.5
    ensures IsTie(lat, key.lat) ==> key.lat % 2 == 0
    ensures IsTie(lon, key.lon) ==> key.lon % 2 == 0
  {
    Key(Round4(lat), Round4(lon))
  }

  /**
    Near-duplicate coordinates share a slot: 40.00001 and 40.00004 both
    round to 40.0000, while 40.00009 rounds to 40.0001.
  */
  lemma RoundingCollapse()
    ensures KeyOf(40.00001, 50.00001) == KeyOf(40.00004, 50.00004) == Key(400000, 500000)
    ensures KeyOf(40.00009, 50.00009) == Key(400001, 500001)
  {
  }

  /** A cached value: when it was stored and the report, or its absence. */
  datatype Entry = Entry(storedAt: real, report: Option<Report>)

  type Cache = map<Key, Entry>

  /** An entry is stale once strictly more than `ttl` seconds have passed. */
  predicate Expired(e: Entry, now: real, ttl: int)
  {
    now - e.storedAt > ttl as real
  }

  /** What `_get_cache` returns. */
  function Lookup(cache: Cache, key: Key, now: real, ttl: int): (r: Option<Report>)
    ensures key !in cache ==> r == None
    ensures key in cache && !Expired(cache[key], now, ttl) ==> r == cache[key].report
    ensures r.Some? ==> key in cache && !Expired(cache[key], now, ttl)
  {
    if key !in cache then None
    else if Expired(cache[key], now, ttl) then None
    else cache[key].report
  }

  /** The cache left by `_get_cache`: a stale entry for the looked-up key is deleted. */
  function AfterLookup(cache: Cache, key: Key, now: real, ttl: int): (c: Cache)
    ensures c.Keys <= cache.Keys
    ensures forall k :: k in c ==> c[k] == cache[k]
    ensures key in cache && Expired(cache[key], now, ttl) ==> c.Keys == cache.Keys - {key}
    ensures !(key in cache && Expired(cache[key], now, ttl)) ==> c == cache
  {
    if key in cache && Expired(cache[key], now, ttl) then cache - {key} else cache
  }

  /** The cache left by `_set_cache`: the key now holds a fresh entry. */
  function Store(cache: Cache, key: Key, now: real, report: Option<Report>): (c: Cache)
    ensures c.Keys == cache.Keys + {key}
    ensures c[key] == Entry(now, report)
    ensures forall k :: k in cache && k != key ==> c[k] == cache[k]
  {
    cache[key := Entry(now, report)]
  }

  /**
    After `_set_cache(lat, lon, r)` at time t, a lookup of any coordinates
    that round to the same key at a time t' no more than ttl later returns
    r (an entry exactly ttl old is still served), and deletes nothing.
  */
  lemma StoreThenLookup(cache: Cache, lat: real, lon: real, t: real, r: Option<Report>,
                        lat': real, lon': real, t': real, ttl: int)
    requires KeyOf(lat', lon') == KeyOf(lat, lon)
    requires t' - t <= ttl as real
    ensures var stored := Store(cache, KeyOf(lat, lon), t, r);
            Lookup(stored, KeyOf(lat', lon'), t', ttl) == r
            && AfterLookup(stored, KeyOf(lat', lon'), t', ttl) == stored
  {
  }

  /**
    A lookup that finds an entry older than ttl removes exactly that key,
    returns no report, and leaves every other key as it was.
  */
  lemma ExpiredLookupEvicts(cache: Cache, key: Key, now: real, ttl: int)
    requires key in cache && now - cache[key].storedAt > ttl as real
    ensures Lookup(cache, key, now, ttl) == None
    ensures key !in AfterLookup(cache, key, now, ttl)
    ensures forall k :: k != key ==>
              (k in AfterLookup(cache, key, now, ttl) <==> k in cache)
    ensures forall k :: k != key && k in cache ==> AfterLookup(cache, key, now, ttl)[k] == cache[k]
  {
  }

  /** A lookup never touches any key other than the one looked up. */
  lemma LookupTouchesOnlyItsKey(cache: Cache, key: Key, now: real, ttl: int, other: Key)
    requires other != key
    ensures other in AfterLookup(cache, key, now, ttl) <==> other in cache
    ensures other in cache ==> AfterLookup(cache, key, now, ttl)[other] == cache[other]
  {
  }
}
