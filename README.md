# Layover Party: a Dafny model of the search, cache and popularity core

Layover Party is a FastAPI service. Travellers search round trips, store
"layover intentions" (a time window at an airport) and find other travellers
whose windows could meet theirs. This project models its sequential core:

- **Popularity and matching** (`layovers.py`, module `Layovers`).
  `set_popularity_for_flights` sets every itinerary detail's `pop_score` in
  place. The score sums, over each layover destination code the itinerary
  passes through, the number of stored intentions at that code.
  `get_users_in_layover` applies the "could plausibly meet" window test to
  candidate rows. The `layovers` table is a sequence of `LayoverDb` rows.
  The grouped `COUNT(*)` query is the function `GroupedCounts`. The
  candidate rows of the matching query are an input.
- **The two TTL caches** (`httputil.py`, `httpcache.py`, modules `HttpUtil`
  and `HttpCache`). Both open the same `cache` table. It is modelled once,
  as the class `CacheDb.CacheTable`, which holds a map from key text to
  `(expiry, response)`. `time.time()` is an explicit `now` in whole seconds.
  Key text (`json.dumps`, which keeps insertion order) is an opaque string.
- **The search endpoint and the profile update** (`main.py`, module `Api`).
  This covers `validate_iata`, the date check, cache-then-fetch with
  write-through on `status`, the page slice with Python's clamping, the
  detail loop that fills a preallocated array by index, the `None` filter,
  the popularity pass, and `update_me`'s statement builder.
  `GetFlights` is an imperative method. It is proved equal to the function
  `GetFlightsSpec`, and the properties are lemmas about `GetFlightsSpec`.
- **The layover score** (`flights.py`, module `Flights`). `layover_score`
  builds the stop sequence, sums the distance over valid consecutive pairs
  and returns `(seconds - distance) / 900`. Arithmetic is over `real`.
  `calculate_distance` is a function parameter.

`models.py` provides the record shapes (module `Models`). `FlightDetail`
and `FlightDetailResponse` are classes, because `pop_score` is assigned in
place. `airports.get_by_iata` is a lookup in a map (module `Airports`).

Notes on what the code does:
- The score uses one constant speed of 900 km/h for every leg, and divides
  the leg's total duration, in seconds, by it.
- The window test accepts a window of 12:20-14:00 against 10:00-12:00
  (`Layovers.DisjointWindowsMeet`). Against a caller window of an hour or
  more, it accepts every window that does not end before it starts
  (`Layovers.LongWindowMeetsAll`).
- Cache keys are `json.dumps` of dicts in insertion order, so two dicts
  with the same items in another order give different keys.
- Nothing in `get_users_in_layover` excludes the caller. In the candidate
  query the `user_id != ?` term binds only to the first disjunct
  (layovers.py:76-77), so the caller's own row comes in through
  `OR depart >= ?`. The later filter at layovers.py:87 compares the `arrive`
  column with the user id.

## Model

| member | source | states |
|---|---|---|
| CacheDb.PurgeExact | httputil.py:47-48 | `DELETE ... WHERE expiry < now` keeps a row iff its expiry is `>= now`, with its contents unchanged |
| CacheDb.ExpiringNowIsHiddenButKept | httputil.py:40-48 | a row expiring exactly at `now` is not readable and is not purged |
| CacheDb.PurgeInvisibleToReads | httputil.py:40-48 | purging at `now` changes no read made at or after `now` |
| CacheDb.PurgeIdempotent | httputil.py:47-48 | purging twice at the same time equals purging once |
| CacheDb.ExpiryLaw | httputil.py:39-44 | a stored row reads iff `now < expiry`, and the read returns its response |
| HttpUtil.GetCached | httputil.py:36-44 | returns a response iff the key's row has `expiry > now`, and then that row's response; the result is `Lookup` of the table, so the read laws of `CacheDb` apply |
| HttpUtil.CleanCache | httputil.py:47-53 | removes exactly the rows with `expiry < now` and leaves every other row unchanged |
| HttpUtil.SetCache | httputil.py:56-64 | the new table is `Purge(old[key := (now + maxAge, response)], now)`, with a 14-day default |
| HttpUtil.SetCacheFrame | httputil.py:56-64 | after `set_cache`: no row expired before `now`; other keys keep their row iff it was unexpired; the written key holds the new row iff `maxAge >= 0` |
| HttpUtil.ReadAfterSetCache | httputil.py:36-63 | with `maxAge > 0`, a read at the same `now` returns the stored response; other keys read as before |
| HttpUtil.ExpiredAfterMaxAge | httputil.py:40-62 | from `now + maxAge` on, the written key reads as absent |
| HttpCache.Get | httpcache.py:31-39 | returns a response iff the row has `expiry > now`, and then that row's response; the result is `Lookup` of the table |
| HttpCache.Set | httpcache.py:42-49 | replaces the row for `key` with `(now + maxAge, response)`, one-day default; every other row is unchanged and nothing is purged |
| HttpCache.Use | httpcache.py:52-59 | a fresh hit returns the cached value without calling the getter or writing; a miss calls the getter once; when it raises, the error propagates and nothing is written; otherwise its result is stored and returned; the outcome equals `UseEffect`; with `maxAge > 0` the key then reads back the returned value |
| HttpCache.UseIsIdempotent | httpcache.py:52-59 | with `maxAge > 0`, after a `use` that returned, a second `use` of the same key at the same time is a hit: same value, table unchanged, whatever the getter would return or raise |
| Layovers.AppendLayoverCodes | layovers.py:23-25 | appends each layover's destination code, in order, to both `iatas` and the flight's list |
| Layovers.AppendLegsCodes | layovers.py:19-25 | appends `LegsCodes(legs)` to both lists; legs without layovers are skipped |
| Layovers.CollectCodes | layovers.py:12-25 | `iata_flights[i]` is the codes of flight i (empty when `legs` is None); `iatas` is all of them concatenated in flight order |
| Layovers.CollectFlight | layovers.py:14-25 | one round of the loop appends flight i's codes to `iatas` and sets its own list to them |
| Layovers.ResetScores | layovers.py:8-10 | every `pop_score` becomes 0 |
| Layovers.AddCodeScores | layovers.py:50-52 | adds to `pop_score` the count of every code with multiplicity; codes missing from the dict add 0 |
| Layovers.CreditOne | layovers.py:46-52 | after response i, every data object's score is its popularity times the number of responses up to i that hold it |
| Layovers.SetPopularityForFlights | layovers.py:7-52 | every final `pop_score` is its popularity times the number of responses holding the object, and exactly its popularity when no other response shares it; only `pop_score` fields are written; the list is not changed |
| Layovers.CreditIsMultiple | layovers.py:46-52 | the credit of an object is `p` times its multiplicity in the list |
| Layovers.FinalCredits | layovers.py:46-52 | after the last pass the credit is popularity times multiplicity, and the multiplicity of an unshared object is 1 |
| Layovers.HitsOfUnshared | layovers.py:46-48 | an unshared data object is held by exactly one response |
| Layovers.DictAgreesWithCounts | layovers.py:27-52 | for every code collected for flight i, the dict lookup (0 when absent) equals the stored-intention count |
| Layovers.PopularityLookup | layovers.py:30-51 | looking up a queried code in the grouped-count dict, with 0 for a missing code, gives `COUNT(*)` at that code |
| Layovers.FlattenContains | layovers.py:24-25 | every code of every flight's list is in `iatas`, so it was queried |
| Layovers.NoLayoversScoreZero | layovers.py:16-21 | a flight with `legs` None, or whose legs all lack layovers, collects no codes and scores 0 |
| Layovers.NoLayoverListsNoCodes | layovers.py:19-21 | legs without layover lists contribute no codes |
| Layovers.LegsCodesConcat | layovers.py:19-25 | codes are collected leg by leg: the codes of `a + b` are those of `a` followed by those of `b` |
| Layovers.OneLegCodes | layovers.py:23-25 | within a leg, exactly one code per layover, its destination display code, in layover order |
| Layovers.CodesScoreConcat | layovers.py:50-52 | the score is additive over the collected codes |
| Layovers.UnpopularCodeAddsNothing | layovers.py:51 | a code without stored intentions adds nothing wherever it occurs |
| Layovers.ScoreGrowsWithIntention | layovers.py:30-52 | one more stored intention at code c raises a score by the number of times the flight passes through c (duplicates count) |
| Layovers.OwnIntentionFinds | layovers.py:57-68 | the own-intention lookup finds nothing iff no row has this user and airport; otherwise it finds the earliest such row |
| Layovers.GetUsersInLayover | layovers.py:55-103 | `[]` when the caller has no intention at the airport; otherwise exactly `Matching` of the candidate users against the `times` dict |
| Layovers.BuildTimes | layovers.py:89-91 | the loop builds `Times(rows)`: the last row of each user id wins |
| Layovers.SelectMatching | layovers.py:93-103 | the loop keeps, in order, the users passing either branch of the window test |
| Layovers.MatchingIsSelection | layovers.py:87-103 | the result is a subsequence of the candidate users, and position k is picked iff user k passes the window test |
| Layovers.TimesOfUniqueRow | layovers.py:78-91 | a user that appears in one row only is judged by that row's window |
| Layovers.CouldMeetExactly | layovers.py:96-101 | the test fails iff the other departs less than 30 after the caller arrives and arrives less than 30 before the caller departs |
| Layovers.DisjointWindowsMeet | layovers.py:96-101 | a 12:20-14:00 window passes against a 10:00-12:00 one |
| Layovers.LongWindowMeetsAll | layovers.py:96-101 | against a caller window of 60 minutes or more, every window that does not end before it starts passes |
| Flights.LayoverScore | flights.py:48-97 | the loop's result equals `LegScore`: the score of the summed distance of the valid pairs, or a failure when a lookup raises |
| Flights.RaisedStaysRaised | flights.py:78-84 | once a pair's lookup has raised, the whole computation has |
| Flights.StopSeqShape | flights.py:59-68 | the sequence is `[origin, *stops, destination]`, with `stops` None treated as empty, and the loop visits the stop count + 1 pairs |
| Flights.DistanceNonNegative | flights.py:78-84 | with a non-negative distance function, `flight_distance` is non-negative |
| Flights.NoValidPairNoDistance | flights.py:70-76 | pairs with a missing stop or code contribute nothing: with none valid, the distance is 0 and nothing raises |
| Flights.RaisesIffUnknownAirport | flights.py:70-84 | the computation raises iff some valid pair names a code the airport lookup does not know |
| Flights.NoValidPairScore | flights.py:87-97 | with no valid pair, the score is `total_seconds / 900` |
| Flights.ScoreAtMostDuration | flights.py:87-97 | with a non-negative distance, the score is at most `total_seconds / 900` |
| Flights.LongerLegScoresHigher | flights.py:91-97 | with the same stops, a longer leg scores higher, by the extra seconds over 900 |
| Flights.SecondsOverSpeedMismatch | flights.py:57-97 | as written, a one-hour 900 km flight with no ground time scores 3.0 |
| Flights.LayoverHoursMeasuresGroundTime | flights.py:86-97 | the corrected score, in hours, equals the ground time |
| Api.ValidateIataSpec | main.py:62-73 | passes iff both codes are present, three long and known; every refusal is a 400 with the message of the first failed check: "Invalid IATA code", then "Invalid origin airport", then "Invalid destination airport" |
| Api.UnknownAirportIsServerError | airports.py:137-150 | as written, an unknown but well-formed origin gives a crash (HTTP 500), not 400 "Invalid origin airport" |
| Api.ValidateIataAgreesOnKnownCodes | main.py:62-73 | when the lookup knows every code given, the as-written and corrected versions agree |
| Api.Page | main.py:261-263 | the slice has length `min(5, max(0, n - start))` with `start = (page-1)*5`, and holds the itineraries from `start` on, in order; an out-of-range page is empty |
| Api.ThirdPageOfTwelve | main.py:261-263 | page 3 of twelve itineraries holds the ones at offsets 10 and 11 |
| Api.PagesCover | main.py:261-263 | the first n full pages, together, are the first 5n itineraries in order |
| Api.LoadCached | main.py:235-256 | the method's result, fetch flag and new table equal `CachedFetch` of the old table |
| Api.CachedFetchPolicy | main.py:235-256 | a fresh hit makes no fetch and no write; a miss returns the upstream answer; the table changes only after a successful fetch with truthy `status`, and then by `set_cache` |
| Api.SecondRequestIsServedFromCache | main.py:235-256 | a written-through answer serves the next identical request without a fetch |
| Api.DetailsKeepPageOrder | main.py:265-302 | with no failure there is one detail per page entry, and detail i is page entry i's own request against the cache as the earlier ones left it |
| Api.DetailsLength | main.py:265-302 | with no failure there is one detail and one fetch flag per page entry |
| Api.DetailsAdvance | main.py:267-302 | one detail request either ends the run with its failure or appends its answer |
| Api.LoadOne | main.py:267-302 | one round of the detail loop: `details[i]` denotes entry i's answer, no other slot changes |
| Api.LoadDetails | main.py:265-305 | the filled array denotes `DetailsFrom` of the old table, slot by slot, with fresh objects; the first failure ends the request |
| Api.Park | main.py:279-302 | `details[i] = res` stores a fresh object denoting the answer, changing no other slot |
| Api.Materialize | main.py:236-279 | the parsed object is fresh and denotes the parsed value |
| Api.Present | main.py:307 | the filter never grows the list, and is the identity when no slot is `None` |
| Api.Assemble | main.py:265-310 | its result and new table equal `AssembleSpec`: fresh objects in page order, each with its popularity set |
| Api.GetFlights | main.py:202-310 | its result, new table and upstream calls equal `GetFlightsSpec` of the old table |
| Api.BadRequestsTouchNothing | main.py:221-224 | malformed codes, codes the map lookup does not know, or `date > return_date` give 400 with no cache read, write or fetch; equal dates pass |
| Api.CachedSearchIsNotFetched | main.py:235-236 | a fresh cached search means no upstream search call |
| Api.AnswerIsOnePage | main.py:261-310 | a successful answer holds at most 5 details, one fetch flag per detail, each with `data` and `pop_score` set |
| Api.BuildUpdateQuery | main.py:163-181 | no query iff every field is None; otherwise the statement is `UPDATE users SET` + the present columns joined by `", "` + `WHERE id = ?`, and the values are the present fields followed by the user id |
| Api.AddField | main.py:166-176 | one `if`: when the field is present, its `col = ?, ` is appended to the statement and its value to the list |
| Api.Finish | main.py:178-180 | cutting the last two characters and appending `WHERE id = ?` gives the joined statement |
| Api.SetColumnsSelectFields | main.py:166-176 | a column is listed iff its field is present, in the order email, first_name, profile_picture, and each value is its column's field |
| Api.NoValuesIffNoFields | main.py:178 | the value list is empty iff all three fields are None |
| Api.CutSeparator | main.py:179 | `q[:-2]` removes exactly the `", "` after the last item |
| Api.TerminatedIsJoinPlusSeparator | main.py:166-179 | the accumulated items equal their `", "`-join plus one trailing separator |
| Api.PlaceholdersMatchValues | main.py:163-182 | the statement has exactly as many `?` as there are values |
| Api.StatementPlaceholders | main.py:163-179 | a statement over n columns has n + 1 placeholders |
| Api.JoinPlaceholders | main.py:166-179 | joining items of one placeholder each gives one per item |

## Left out

- `limiter.py` and the rate-limit branches of `get_flights`: a wrapper over a library whose bucket logic is not part of this model.
- `fetch_flights` / `fetch_flight_details` are not part of this model. Their answers, or the failures they raise, are the `Upstream` parameter. `httputil.raise_external` is not defined in `httputil.py`; the failure it raises is part of that parameter too.
- JSON and pydantic: `json.dumps` of the key dicts, `.json()`, `parse_raw`. These are the `Codec` parameter. A text that does not parse is a validation-error crash.
- Api.GetFlights: `json.dumps` of a key dict that holds `date` objects raises a `TypeError` in Python. The model takes key text from `keyText` and does not model that error.
- Api.GetFlights: cache keys omit `num_adults` and `wait_time` in the source too. The upstream parameter is one fixed answer per request, so the model cannot show two requests that differ only in those values sharing a cache entry.
- Api.GetFlights: the detail requests run concurrently under `asyncio.gather`. The model runs them in page order and stops at the first failure. Which other requests ran, and what they wrote to the cache, is not modelled when a failure ends the gather.
- Api.GetFlights: in the model each detail read sees the cache writes of the earlier page entries. In the source, every task under `asyncio.gather` reads the cache (main.py:278) before any task writes it (main.py:300), because the upstream call in between is the only suspension point; all reads see the table from before the gather. So when two page entries share a detail key (equal itinerary ids, or both ids None), the source fetches both while the model fetches once and serves the second from the cache: `detailFetched` and the number of upstream detail calls differ for repeated keys (`Api.DetailsFrom`, `Api.LoadDetails`, `Api.DetailsKeepPageOrder`, `Api.GetFlights`).
- Api.Assemble: when a detail has no `data`, `set_popularity_for_flights` fails its assertion. The model returns the crash and does not model the `pop_score` values reset before the failing item.
- Api.GetFlights: `page >= 1` is a precondition. FastAPI enforces `ge=1` (main.py:217) before the body runs.
- The SQL of the candidate query in `get_users_in_layover` (layovers.py:72-81), with its AND/OR precedence, and the `r[0] != user_id` filter (layovers.py:87). The rows are an input, and every row is kept. The model claims nothing about excluding the caller.
- Layovers.SetPopularityForFlights: the `rows is None` early return (layovers.py:38-39), because `fetchall` never returns None. The row-to-dict loop (layovers.py:42-44) is the map `GroupedCounts`, not a loop.
- Layovers.SetPopularityForFlights: the `flight is None` and `leg is None` checks (layovers.py:16, 20) are excluded by the types. Every response is a non-null object and every leg a value.
- Layovers.GetUsersInLayover: timestamps are integer minutes, and the `rows is None` branch (layovers.py:84-85) is not modelled.
- Api.GetFlights: validation uses the map lookup `GetByIata`, which returns None for an unknown code. As written, `get_by_iata` raises for an unknown well-formed code and the request ends with HTTP 500 (see Findings), so the 400 answers for unknown airports hold only for the corrected lookup.
- Layovers.GetUsersInLayover: query rows are modelled as mappings from column name to value. `db.py` opens the connection without a `row_factory`, so `fetchone`/`fetchall` return tuples, and `LayoverDb(**row)` (layovers.py:70) and `UserResponse(**r)` (layovers.py:87) would raise on them. The model assumes mapping rows and does not model that error.
- HttpUtil.SetCache: the write and the purge use one clock reading `now`. The source reads `time.time()` twice (httputil.py:62 for the written row, httputil.py:48 inside the purge), so the purge runs slightly later; with `max_age = 0` the source deletes the row it just wrote, while the model keeps it (`HttpUtil.SetCacheFrame` states the row is kept iff `maxAge >= 0`).
- `time.time()` is a float. The model's `now` is an integer number of seconds.
- Haversine `calculate_distance` and `deg2rad` (flights.py:21-45): floating point. The distance is a function parameter, proved non-negative only where a lemma requires it.
- Flights.LayoverScore: the float arithmetic is exact `real` arithmetic.
- Login, register, `me`, user lookup, layover CRUD and asset endpoints of `main.py`. In `update_me`, the statement's execution, the commit and the final `me(user)` call are not modelled.
- `airports.py` beyond `get_by_iata`: the download and `find_by_coords`. `db.py`, `deps.py` and the seed script are not part of this model.

## Findings

| source | as written | input that shows it | evidently intended | confidence | as-written member | corrected member |
|---|---|---|---|---|---|---|
| airports.py:141-142, main.py:69-73 | `get_by_iata` indexes `row` with no None check, so `validate_iata`'s `is None` tests never fire and an unknown code raises TypeError (HTTP 500) | `validate_iata("ZZZ", "LAX")` with ZZZ unknown | HTTP 400 "Invalid origin airport" | high, not executed | Api.ValidateIataAsWritten, Api.UnknownAirportIsServerError | Api.ValidateIata, Api.ValidateIataSpec |
| flights.py:87-97 | the total duration is in seconds but is divided by a speed in km/h, while the flight time is in hours, so the two terms of the difference have different units | a one-hour nonstop leg of 900 km with no ground time scores 3.0 | duration in hours minus flight time in hours, which is 0 for that leg | medium, not executed | Flights.LayoverScore, Flights.SecondsOverSpeedMismatch | Flights.LayoverHours, Flights.LayoverHoursMeasuresGroundTime |
