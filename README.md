# Weather bot core: fetch policy and per-user throttle

This project is a Dafny model of two stateful pieces of a Telegram weather bot.

- **`WeatherService`** fetches current weather for a coordinate pair. It keeps an
  in-memory cache keyed by the coordinates rounded to four decimals. Entries
  expire lazily, and only when their own key is looked up. On a miss it makes
  up to `max_retries` requests. It stops at a success, at a 2xx response with
  no `current_weather` payload, or at a 4xx status. Between retryable
  attempts it sleeps an exponential, jittered pause of at least 0.1 s. Its
  `condition` property turns a WMO weather code into a description, with
  "Code N" as the fallback.
- **`ThrottleMiddleware`** keeps the time of each user's last accepted
  request. It drops a request from the same user that comes less than `rate`
  seconds later. Every other request that carries a user id stamps the
  current time and reaches the handler. An event without a user id reaches
  the handler and stamps nothing; as written, that includes a bare
  `CallbackQuery` (see "Findings").

Modules:

- `Wrappers` holds `Option`.
- `WeatherReport` holds the report value, the condition table, and decimal
  writing and reading of the "Code N" fallback.
- `WeatherCache` holds the rounded key, the cache entry, and the lookup and
  store rules as functions on a `map`.
- `WeatherFetch` holds the outcome of one attempt, the retry classification
  and the backoff. `Retry` is the specification of the loop, and lemmas
  characterise it.
- `WeatherServiceModel` holds the `WeatherService` class. Its `cache` field
  is a `map` that `GetCache`, `SetCache` and `GetWeather` update in place.
  `GetWeather` runs the `while` loop, and the function `GetWeatherSpec`
  specifies it.
- `Throttle` holds the event shapes, user-id extraction, the accept/reject
  rule, runs over sequences of requests, and the `ThrottleMiddleware` class
  with its `last` map field.

Inputs that the Python code reads from its environment are parameters here:

- `now` is the monotonic clock at the cache lookup or at the throttle check.
- `env(i)` is the outcome of request number `i`, counted from 1. It comes
  with the clock reading taken just after that request.
- The sleep durations are returned as a trace (`sleeps`), not slept.

Two behaviours of the code are worth knowing. An entry exactly `cache_ttl`
old is still served, because expiry uses a strict `>`. A 4xx status also
stores `None` for the key, because the loop `break`s to the common exit that
caches the failure.

## Model

| member | source | states |
|---|---|---|
| `WeatherReport.Condition` | bot/services/weather/get_data.py:23-38 | codes 0, 1, 2, 3, 45, 48, 51, 61, 71, 95 get their table text; every other code gets "Code " followed by the code in decimal |
| `WeatherReport.TableTextsAreNotFallbacks` | bot/services/weather/get_data.py:26-37 | no table description begins with "Code " |
| `WeatherReport.DescribeCoversKnownCodes` | bot/services/weather/get_data.py:26-37 | the table has an entry exactly for the ten known codes |
| `WeatherReport.IntToStringRoundTrip` | bot/services/weather/get_data.py:38 | the decimal text of the code in the fallback reads back as that code, negatives included |
| `WeatherReport.FallbackNamesCode` | bot/services/weather/get_data.py:38 | for an unmapped code the text is "Code " plus a number that parses back to the code, and it differs from every table text |
| `WeatherReport.ConditionInjective` | bot/services/weather/get_data.py:26-38 | two codes share a description only when they are the same code |
| `WeatherCache.Round4` | bot/services/weather/get_data.py:78 | `round(x, 4)` in ten-thousandths: within half a unit of x * 10000, ties to even |
| `WeatherCache.Round4Unique` | bot/services/weather/get_data.py:78 | any integer within half a unit that breaks ties to even equals Round4, so the rounding is fully determined |
| `WeatherCache.Round4OnGrid` | bot/services/weather/get_data.py:78 | a coordinate already on the four-decimal grid rounds to itself |
| `WeatherCache.KeyOf` | bot/services/weather/get_data.py:78 | each key component lies within half a ten-thousandth of its coordinate, and an exact tie goes to the even grid point |
| `WeatherCache.RoundingCollapse` | bot/services/weather/get_data.py:78 | 40.00001 and 40.00004 share a key; 40.00009 rounds to the next key |
| `WeatherCache.Lookup` | bot/services/weather/get_data.py:77-87 | a missing key gives None; a fresh entry gives its stored value; any report returned comes from a present, unexpired entry |
| `WeatherCache.AfterLookup` | bot/services/weather/get_data.py:83-86 | a lookup deletes the looked-up key exactly when its entry is stale, and changes nothing else |
| `WeatherCache.Store` | bot/services/weather/get_data.py:89-91 | storing sets the key to (now, report) and keeps every other entry |
| `WeatherCache.StoreThenLookup` | bot/services/weather/get_data.py:77-91 | after a store at t, a lookup of coordinates with the same rounded key at t' with t' - t <= ttl returns the stored value and deletes nothing |
| `WeatherCache.ExpiredLookupEvicts` | bot/services/weather/get_data.py:83-86 | a lookup finding an entry older than ttl returns None, removes that key and leaves every other key and value unchanged |
| `WeatherCache.LookupTouchesOnlyItsKey` | bot/services/weather/get_data.py:79-86 | a lookup never adds, removes or changes any key but its own |
| `WeatherFetch.Verdict` | bot/services/weather/get_data.py:118-127 | a terminal outcome yields a report exactly when it is a success, and then that success's report |
| `WeatherFetch.Frac` | bot/services/weather/get_data.py:147 | the loop-time fraction `t % 1` lies in [0, 1) and t minus it is a whole number |
| `WeatherFetch.Pause` | bot/services/weather/get_data.py:144-148 | the pause slept is max(0.1, wait): at least 0.1 and at least the wait, and equal to one of them |
| `WeatherFetch.WaitBounds` | bot/services/weather/get_data.py:145-147 | with b = backoff * 2^(attempt-1) and a positive factor, the wait lies in (0.95 b, 1.05 b], and b doubles from one attempt to the next |
| `WeatherFetch.Retry` | bot/services/weather/get_data.py:113-148 | from attempt k, the loop makes between k and `max_retries` attempts (none when k is past `max_retries`), one pause fewer than attempts, and a report is returned only when the last attempt succeeded with it |
| `WeatherFetch.Fetch` | bot/services/weather/get_data.py:113-153 | one call's loop makes between 1 and `max_retries` attempts with one pause fewer, or none with result None when `max_retries` < 1; a returned report is the last attempt's success |
| `WeatherFetch.RetryShape` | bot/services/weather/get_data.py:113-153 | from attempt k the loop runs until the first terminal outcome or `max_retries`; earlier attempts were retryable; the value is the terminal verdict or None; one pause follows each attempt but the last; the entry is stamped after the last attempt |
| `WeatherFetch.AttemptBounds` | bot/services/weather/get_data.py:113 | the number of attempts is between 1 and `max_retries`, or 0 with result None when `max_retries` < 1 |
| `WeatherFetch.FirstTerminalEndsLoop` | bot/services/weather/get_data.py:118-135 | the first success, missing payload or 4xx ends the loop at that attempt with its verdict, and no pause follows it |
| `WeatherFetch.ClientErrorStops` | bot/services/weather/get_data.py:129-135 | a 4xx status at attempt k ends the loop there with None and k - 1 pauses |
| `WeatherFetch.ExhaustedRetries` | bot/services/weather/get_data.py:136-153 | when every attempt is retryable, all `max_retries` attempts are made, the result is None, and the pauses are those after attempts 1 .. max_retries - 1 |
| `WeatherFetch.PausesBounded` | bot/services/weather/get_data.py:144-148 | every pause in a call is at least 0.1 s and, for a positive factor, is 0.1 or within (0.95 b, 1.05 b] of its base delay |
| `WeatherServiceModel.GetWeatherSpec` | bot/services/weather/get_data.py:93-153 | a cached report is returned with no request and no cache change; on a miss the key ends up holding the value returned; a returned report is always in the cache under its key; no other key is added |
| `WeatherServiceModel.WeatherService.constructor` | bot/services/weather/get_data.py:52-71 | the service starts with the given TTL, retry count and backoff factor, and an empty cache |
| `WeatherServiceModel.WeatherService.GetCache` | bot/services/weather/get_data.py:77-87 | returns the lookup's value and leaves the cache the lookup leaves |
| `WeatherServiceModel.WeatherService.SetCache` | bot/services/weather/get_data.py:89-91 | the cache becomes the old cache with the rounded key set to (now, report) |
| `WeatherServiceModel.WeatherService.GetWeather` | bot/services/weather/get_data.py:93-153 | the returned value, the attempt count, the pauses and the new cache are those of `GetWeatherSpec` on the old cache |
| `WeatherServiceModel.CacheHitMakesNoRequest` | bot/services/weather/get_data.py:99-103 | a fresh cached report is returned with zero attempts, no pause and the cache unchanged |
| `WeatherServiceModel.MissStoresResult` | bot/services/weather/get_data.py:118-153 | a call that misses stores exactly its own result under the key, stamped after its last attempt, and keeps every other key |
| `WeatherServiceModel.NegativeEntryRefetches` | bot/services/weather/get_data.py:100-103 | a fresh cached None does not prevent a new request |
| `WeatherServiceModel.IntendedGetWeather` | bot/services/weather/get_data.py:150-152 | with the lookup the comment on the negative entry intends, any fresh entry answers the call with no request and no cache change; everything else is as `GetWeatherSpec` |
| `WeatherServiceModel.IntendedNegativeEntrySparesRequests` | bot/services/weather/get_data.py:150-152 | with the intended lookup, after a call that returned None, a call for the same key within the TTL makes no request and returns None |
| `WeatherServiceModel.ExpiredEntryRefetches` | bot/services/weather/get_data.py:83-103 | an entry older than the TTL is re-queried, whatever it holds |
| `WeatherServiceModel.RepeatWithinTtlIsServedFromCache` | bot/services/weather/get_data.py:77-127 | after a call that returned a report, a call for the same rounded key within the TTL returns the same report with no request and no cache change |
| `Throttle.UserId` | bot/middlewares/throttle.py:39-75 | as written: an Update takes its message's sender when present, otherwise its callback query's; a bare message takes its sender; a bare callback query and other events have none |
| `Throttle.IntendedUserId` | bot/middlewares/throttle.py:62-75 | as intended: a bare callback query takes its sender; every other event is attributed as `UserId` does |
| `Throttle.Admit` | bot/middlewares/throttle.py:77-92 | a rejection needs a known sender and changes nothing; an acceptance adds at most the sender's key; no other user's entry changes |
| `Throttle.Step` | bot/middlewares/throttle.py:39-92 | an event without a user id passes and changes nothing; an accepted event from a sender stamps it with now |
| `Throttle.IntendedStep` | bot/middlewares/throttle.py:62-92 | with the intended extraction, every event but a bare callback query is handled exactly as `Step` handles it |
| `Throttle.TooSoonIsRejected` | bot/middlewares/throttle.py:78-88 | a request less than `rate` after the sender's last accepted one does not reach the handler and leaves the map unchanged |
| `Throttle.OtherwiseAcceptedAndStamped` | bot/middlewares/throttle.py:79-92 | any other request from a sender reaches the handler and sets the sender's entry to now |
| `Throttle.ExactlyRateIsAccepted` | bot/middlewares/throttle.py:80 | a request exactly `rate` after the last accepted one is accepted |
| `Throttle.OtherUsersUntouched` | bot/middlewares/throttle.py:90 | no entry but the sender's own is added, removed or changed |
| `Throttle.NoSenderPassesThrough` | bot/middlewares/throttle.py:77-92 | an event without a user id always reaches the handler and leaves the map unchanged |
| `Throttle.LastAccepted` | bot/middlewares/throttle.py:79-90 | finds the last request of a user among the first n that was let through, or none |
| `Throttle.StampIsLastAccepted` | bot/middlewares/throttle.py:79-90 | after any run of requests, a user's entry is the time of that user's last accepted request, or the entry from before the run when none was accepted |
| `Throttle.AcceptedRequestsAreSpaced` | bot/middlewares/throttle.py:78-90 | two consecutive accepted requests of the same user are at least `rate` apart, however many requests were dropped between them |
| `Throttle.AnyAcceptedRequestsAreSpaced` | bot/middlewares/throttle.py:78-90 | with a non-negative rate, any two accepted requests of the same user, consecutive or not, are at least `rate` apart |
| `Throttle.RejectionsDoNotRefresh` | bot/middlewares/throttle.py:80-90 | if none of a user's requests in a run got through, the next request at least `rate` after the earlier stamp is accepted |
| `Throttle.ThrottleMiddleware.constructor` | bot/middlewares/throttle.py:23-26 | the middleware starts with the given rate and an empty map |
| `Throttle.ThrottleMiddleware.Call` | bot/middlewares/throttle.py:28-92 | the handler runs and the map changes exactly as `Step` says, with the user id extracted as written: no user id means pass and no change; a rejection means no change; an acceptance stamps the sender with now |
| `Throttle.CallbackQueryPassesUnthrottled` | bot/middlewares/throttle.py:65-75 | as written, a bare callback query has no user id, so it passes and leaves the map unchanged even right after its sender was accepted, while a message from that sender is dropped |
| `Throttle.IntendedCallbackQueryThrottled` | bot/middlewares/throttle.py:62-75 | with its sender extracted, a bare callback query is dropped exactly like a message from the same user |
| `Throttle.ExtractionsAgreeElsewhere` | bot/middlewares/throttle.py:44-75 | the intended extraction differs from the written one only for a bare callback query that has a sender |

## Findings

| source | as written | input that shows it | evidently intended | confidence | as-written member | corrected member |
|---|---|---|---|---|---|---|
| bot/middlewares/throttle.py:65-75 | a bare `CallbackQuery` builds the throttle reply but never sets `user_id`, so it is never throttled and never stamps the map | a `CallbackQuery` from user u arriving less than `rate` after u's last accepted request | `user_id = cq.from_user.id`, as in the `Update` branch at lines 48-50 | high; not executed. The bot registers the middleware on updates only (bot/start.py:49), so there this branch is not reached | `Throttle.CallbackQueryPassesUnthrottled` | `Throttle.IntendedCallbackQueryThrottled` |
| bot/services/weather/get_data.py:150-152 | a failed call stores `None`, by its comment so that repeated failures do not become a tight loop of requests, but `_get_cache` returns that `None` like a missing key and `get_weather` treats it as a miss | a second call for the same coordinates within `cache_ttl` after a call that returned `None` | the fresh negative entry answers the call without a request | medium; not executed. The comment at line 151 states the intent; the code never reads the stored `None` back | `WeatherServiceModel.NegativeEntryRefetches` | `WeatherServiceModel.IntendedNegativeEntrySparesRequests` |

`Throttle.Step` and `ThrottleMiddleware.Call` follow the code, with
`Throttle.UserId`; `Throttle.IntendedUserId` and `Throttle.IntendedStep` are
the corrected definitions. Likewise `GetWeatherSpec` and the `WeatherService`
class follow the code, and `IntendedGetWeather` is the corrected definition
of a call.

## Left out

- The HTTP request is not modelled. This covers the httpx client, its
  `timeout`, the endpoint and query parameters, `raise_for_status`, JSON
  decoding and the pydantic construction of the report. Each attempt's
  result is an input `Outcome`. `HttpStatus(code)` stands only for a status
  that `raise_for_status` rejects, so a 2xx code there is not a meaningful
  input. A body that does not decode, or a payload the report model rejects,
  is `OtherError`.
- `close()` and the "fetch after close" lifecycle error are not modelled.
  They only release the HTTP connection pool.
- Floating point is not modelled. Coordinates, times and delays are Dafny
  `real`s. `round(x, 4)` is exact round-half-even on the decimal value, not
  on its binary float.
- The constructor's `int(...)` and `float(...)` casts are not modelled. The
  model takes the tunables already as `int` and `real`.
- Clock readings are simplified. The model gives each attempt one clock
  reading, taken right after it. That reading serves as the jitter's loop
  time (asyncio's loop clock is the monotonic clock) or as the cache stamp,
  since no attempt uses both. With `max_retries` < 1 there is no attempt,
  and the negative entry is stamped with the lookup time `now`.
- `asyncio.sleep` and concurrency between calls are not modelled. Pauses are
  recorded in a trace. The model is sequential, so two concurrent calls for
  the same key, with no single-flight guard, are not represented.
- `last_exc` and all logging, including the `logger.catch` decorator, are
  not modelled. `last_exc` is only written to the log.
- `format_time` and `build_weather_message` are not modelled. They are
  datetime and HTML/emoji formatting with no policy in them.
- Throttle reply delivery is not modelled: the `reply_coro` notices and
  their exception fallbacks. The model keeps only whether the handler is
  called.
- The chat handlers, keyboards, states, database, session middleware,
  coordinate-file lookup and the entrypoint are not modelled. They are
  configuration or I/O around the two components.
