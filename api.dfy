/**
 * main.py: the request logic of the search endpoint `GET /api/flights`
 * (input checks, cache-then-fetch of the search and of every itinerary
 * detail on the requested page, page slicing, ordered assembly and the
 * popularity pass) and the query builder of `PATCH /api/me`.
 *
 * The upstream calls `fetch_flights` / `fetch_flight_details`, the JSON
 * text of cache keys and the pydantic (de)serialisation are parameters.
 */
module Api {
  import opened Wrappers
  import opened Models
  import opened Airports
  import opened CacheDb
  import HttpUtil
  import Layovers

  // ------------------------------------------------------------------
  // validate_iata
  // ------------------------------------------------------------------

  /** `validate_iata`: both codes present and three characters long, then
    * both known airports; every rejection is an HTTP 400. */
  function ValidateIata(origin: Option<string>, dest: Option<string>, airports: AirportTable): Result<(), Failure>
  {
    if origin.None? || dest.None? then Err(HttpError(400, "Invalid IATA code"))
    else if |origin.value| != 3 || |dest.value| != 3 then Err(HttpError(400, "Invalid IATA code"))
    else if GetByIata(airports, origin.value).None? then Err(HttpError(400, "Invalid origin airport"))
    else if GetByIata(airports, dest.value).None? then Err(HttpError(400, "Invalid destination airport"))
    else Ok(())
  }

  /** `validate_iata` over the lookup as written, which raises for an
    * unknown code instead of returning None. */
  function ValidateIataAsWritten(origin: Option<string>, dest: Option<string>, airports: AirportTable): Result<(), Failure>
  {
    if origin.None? || dest.None? then Err(HttpError(400, "Invalid IATA code"))
    else if |origin.value| != 3 || |dest.value| != 3 then Err(HttpError(400, "Invalid IATA code"))
    else
      match GetByIataAsWritten(airports, origin.value)
      case Err(e) => Err(e)
      case Ok(_) =>
        match GetByIataAsWritten(airports, dest.value)
        case Err(e) => Err(e)
        case Ok(_) => Ok(())
  }

  /** A request passes exactly when both codes are present, have length 3
    * and name known airports; otherwise it is refused with status 400 and
    * the message of the first failed check. */
  lemma ValidateIataSpec(origin: Option<string>, dest: Option<string>, airports: AirportTable)
    ensures ValidateIata(origin, dest, airports).Ok? <==>
      origin.Some? && dest.Some? && |origin.value| == 3 && |dest.value| == 3
      && origin.value in airports && dest.value in airports
    ensures ValidateIata(origin, dest, airports).Err? ==>
      ValidateIata(origin, dest, airports).error.HttpError? && ValidateIata(origin, dest, airports).error.status == 400
    ensures (origin.None? || dest.None? || |origin.value| != 3 || |dest.value| != 3) ==>
      ValidateIata(origin, dest, airports) == Err(HttpError(400, "Invalid IATA code"))
    ensures origin.Some? && dest.Some? && |origin.value| == 3 && |dest.value| == 3 && origin.value !in airports ==>
      ValidateIata(origin, dest, airports) == Err(HttpError(400, "Invalid origin airport"))
    ensures (origin.Some? && dest.Some? && |origin.value| == 3 && |dest.value| == 3
             && origin.value in airports && dest.value !in airports) ==>
      ValidateIata(origin, dest, airports) == Err(HttpError(400, "Invalid destination airport"))
  {
  }

  /** As written, a well-formed but unknown origin code is not refused with
    * 400: the lookup raises, which the framework answers with 500. */
  lemma UnknownAirportIsServerError(airports: AirportTable)
    requires "ZZZ" !in airports && "LAX" in airports
    ensures ValidateIataAsWritten(Some("ZZZ"), Some("LAX"), airports).Err?
    ensures ValidateIataAsWritten(Some("ZZZ"), Some("LAX"), airports).error.Crash?
    ensures ValidateIata(Some("ZZZ"), Some("LAX"), airports) == Err(HttpError(400, "Invalid origin airport"))
  {
  }

  /** Where the lookup knows the code, the two versions agree. */
  lemma ValidateIataAgreesOnKnownCodes(origin: Option<string>, dest: Option<string>, airports: AirportTable)
    requires origin.Some? ==> origin.value in airports
    requires dest.Some? ==> dest.value in airports
    ensures ValidateIataAsWritten(origin, dest, airports) == ValidateIata(origin, dest, airports)
  {
  }

  // ------------------------------------------------------------------
  // Pagination
  // ------------------------------------------------------------------

  const PAGE_SIZE: nat := 5

  /** Python's `s[start:end]` for non-negative bounds: both are clamped to
    * the length, so an out-of-range slice is empty rather than an error. */
  function PySlice<T>(s: seq<T>, start: nat, end: nat): seq<T>
    requires start <= end
  {
    var a := if start < |s| then start else |s|;
    var b := if end < |s| then end else |s|;
    s[a..b]
  }

  /** The requested page of the search result: at most five itineraries,
    * those from offset `(page - 1) * 5` on, in order, with the bounds clamped
    * to the data as a slice does. */
  function Page<T>(data: seq<T>, page: int): (r: seq<T>)
    requires page >= 1
    ensures var start := (page - 1) * PAGE_SIZE;
      |r| == (if |data| <= start then 0 else if |data| - start < PAGE_SIZE then |data| - start else PAGE_SIZE)
    ensures forall k :: 0 <= k < |r| ==> r[k] == data[(page - 1) * PAGE_SIZE + k]
  {
    PySlice(data, (page - 1) * PAGE_SIZE, (page - 1) * PAGE_SIZE + PAGE_SIZE)
  }

  /** Page 3 of twelve ranked itineraries holds the ones at offsets 10 and 11. */
  lemma ThirdPageOfTwelve<T>(data: seq<T>)
    requires |data| == 12
    ensures Page(data, 3) == [data[10], data[11]]
  {
  }

  /** Pages are disjoint, consecutive runs: together the first pages cover
    * the data from the start, in order. */
  lemma {:induction false} PagesCover<T>(data: seq<T>, pages: nat)
    requires pages * PAGE_SIZE <= |data|
    ensures Concat(data, pages) == data[..pages * PAGE_SIZE]
  {
    if pages > 0 {
      PagesCover(data, pages - 1);
      var p := Page(data, pages);
      assert |p| == PAGE_SIZE;
      assert data[..pages * PAGE_SIZE] == data[..(pages - 1) * PAGE_SIZE] + p;
    }
  }

  /** Pages 1 to `pages`, one after another. */
  function Concat<T>(data: seq<T>, pages: nat): seq<T>
  {
    if pages == 0 then [] else Concat(data, pages - 1) + Page(data, pages)
  }

  // ------------------------------------------------------------------
  // Cache-then-fetch
  // ------------------------------------------------------------------

  /** The logical content of a cache-key dictionary, in its insertion order.
    * Its text is given by the codec's `keyText` (`json.dumps`). */
  datatype CacheKey =
    | SearchKey(origin: string, dest: string, date: int, returnDate: int)
    | DetailKey(itineraryId: Option<string>, origin: string, dest: string, date: int, returnDate: int)

  /** Key text and the pydantic `.json()` / `parse_raw` of both response
    * types; a parse that fails is a validation error. */
  datatype Codec = Codec(
    keyText: CacheKey -> KeyText,
    encodeSearch: FlightApiResponse -> string,
    decodeSearch: string -> Option<FlightApiResponse>,
    encodeDetail: DetailResponseValue -> string,
    decodeDetail: string -> Option<DetailResponseValue>)

  /** What the upstream API answers for this request: the search, and the
    * detail call for each itinerary id. A failure is whatever the call (or
    * `limiter.raise_http` / `httputil.raise_external`) raises. */
  datatype Upstream = Upstream(
    search: Result<FlightApiResponse, Failure>,
    detail: Option<string> -> Result<DetailResponseValue, Failure>)

  /** The query parameters of `GET /api/flights`; dates are day numbers. */
  datatype FlightsQuery = FlightsQuery(
    origin: string, dest: string, date: int, returnDate: int, numAdults: int, waitTime: int, page: int)

  /** One cache-then-fetch step: its result, whether the upstream call was
    * made, and the cache table afterwards. */
  datatype Step<T> = Step(result: Result<T, Failure>, fetched: bool, table: Table)

  const VALIDATION_ERROR: string := "pydantic ValidationError"

  /** A fresh cached text is parsed and used without a fetch; otherwise the
    * upstream answer is used and written through only when its `status` is
    * truthy. */
  function CachedFetch<T>(t: Table, now: int, key: KeyText, decode: string -> Option<T>,
                          fetch: Result<T, Failure>, status: T -> Option<bool>, encode: T -> string): Step<T>
  {
    match Lookup(t, key, now)
    case Some(text) =>
      Step(match decode(text) case Some(v) => Ok(v) case None => Err(Crash(VALIDATION_ERROR)), false, t)
    case None =>
      match fetch
      case Err(e) => Step(Err(e), true, t)
      case Ok(v) =>
        Step(Ok(v), true, if status(v) == Some(true) then HttpUtil.SetCacheEffect(t, now, key, encode(v), HttpUtil.MAX_AGE) else t)
  }

  /** `get_cached`, then on a miss the upstream call and `set_cache` when the
    * answer's `status` is truthy. */
  method LoadCached<T>(cache: CacheTable, now: int, key: KeyText, decode: string -> Option<T>,
                       fetch: Result<T, Failure>, status: T -> Option<bool>, encode: T -> string)
    returns (r: Result<T, Failure>, fetched: bool)
    modifies cache
    ensures Step(r, fetched, cache.entries) == CachedFetch(old(cache.entries), now, key, decode, fetch, status, encode)
  {
    var cached := HttpUtil.GetCached(cache, now, key);
    if cached.Some? {
      fetched := false;
      var parsed := decode(cached.value);
      if parsed.None? {
        r := Err(Crash(VALIDATION_ERROR));
      } else {
        r := Ok(parsed.value);
      }
      return;
    }
    fetched := true;
    r := fetch;
    if fetch.Ok? && status(fetch.value) == Some(true) {
      HttpUtil.SetCache(cache, now, key, encode(fetch.value));
    }
  }

  /** On a fresh hit no upstream call is made and nothing is written; on a
    * miss the upstream answer is the result; the table changes only after a
    * fetch that succeeded with a truthy `status`, and then by `set_cache`. */
  lemma CachedFetchPolicy<T>(t: Table, now: int, key: KeyText, decode: string -> Option<T>,
                             fetch: Result<T, Failure>, status: T -> Option<bool>, encode: T -> string)
    ensures var s := CachedFetch(t, now, key, decode, fetch, status, encode);
      && (Lookup(t, key, now).Some? ==> !s.fetched && s.table == t)
      && (Lookup(t, key, now).None? ==> s.fetched && s.result == fetch)
      && (s.table != t ==> s.fetched && fetch.Ok? && status(fetch.value) == Some(true))
      && (s.fetched && fetch.Ok? && status(fetch.value) == Some(true) ==>
            s.table == HttpUtil.SetCacheEffect(t, now, key, encode(fetch.value), HttpUtil.MAX_AGE))
  {
  }

  /** A response that was written through is served from the cache by the
    * next identical request at the same time, without a fetch, provided its
    * serialisation parses back to it. */
  lemma SecondRequestIsServedFromCache<T>(t: Table, now: int, key: KeyText, decode: string -> Option<T>,
                                          first: Result<T, Failure>, second: Result<T, Failure>,
                                          status: T -> Option<bool>, encode: T -> string)
    requires Lookup(t, key, now).None?
    requires first.Ok? && status(first.value) == Some(true)
    requires decode(encode(first.value)) == Some(first.value)
    ensures var s1 := CachedFetch(t, now, key, decode, first, status, encode);
      var s2 := CachedFetch(s1.table, now, key, decode, second, status, encode);
      s2.result == first && !s2.fetched && s2.table == s1.table
  {
    HttpUtil.ReadAfterSetCache(t, now, key, encode(first.value), HttpUtil.MAX_AGE, key);
  }

  function SearchStatus(s: FlightApiResponse): Option<bool> { s.status }

  function DetailStatus(v: DetailResponseValue): Option<bool> { v.status }

  function SearchKeyText(q: FlightsQuery, codec: Codec): KeyText
  {
    codec.keyText(SearchKey(q.origin, q.dest, q.date, q.returnDate))
  }

  function DetailKeyText(q: FlightsQuery, codec: Codec, f: Flight): KeyText
  {
    codec.keyText(DetailKey(f.id, q.origin, q.dest, q.date, q.returnDate))
  }

  /** The detail request of one itinerary of the page. */
  function DetailStep(t: Table, now: int, f: Flight, q: FlightsQuery, codec: Codec, up: Upstream): Step<DetailResponseValue>
  {
    CachedFetch(t, now, DetailKeyText(q, codec, f), codec.decodeDetail, up.detail(f.id), DetailStatus, codec.encodeDetail)
  }

  /** The detail requests of a run of page entries, in page order, up to and
    * including the first that fails. */
  datatype Details = Details(values: seq<DetailResponseValue>, fetched: seq<bool>, table: Table, failure: Option<Failure>)

  function DetailsFrom(t: Table, now: int, page: seq<Flight>, q: FlightsQuery, codec: Codec, up: Upstream): Details
    decreases |page|
  {
    if page == [] then Details([], [], t, None)
    else
      var s := DetailStep(t, now, page[0], q, codec, up);
      match s.result
      case Err(e) => Details([], [s.fetched], s.table, Some(e))
      case Ok(v) =>
        var rest := DetailsFrom(s.table, now, page[1..], q, codec, up);
        Details([v] + rest.values, [s.fetched] + rest.fetched, rest.table, rest.failure)
  }

  /** When no detail request fails there is one detail per page entry, and
    * the `i`-th is the answer of the `i`-th entry's own request, made against
    * the cache as the earlier requests left it. */
  lemma {:induction false} DetailsKeepPageOrder(t: Table, now: int, page: seq<Flight>, q: FlightsQuery, codec: Codec, up: Upstream, i: int)
    requires 0 <= i < |page|
    requires DetailsFrom(t, now, page, q, codec, up).failure.None?
    decreases |page|
    ensures var d := DetailsFrom(t, now, page, q, codec, up);
      var s := DetailStep(DetailsFrom(t, now, page[..i], q, codec, up).table, now, page[i], q, codec, up);
      && |d.values| == |page| && |d.fetched| == |page|
      && s.result == Ok(d.values[i]) && s.fetched == d.fetched[i]
  {
    var s0 := DetailStep(t, now, page[0], q, codec, up);
    if i == 0 {
      DetailsLength(s0.table, now, page[1..], q, codec, up);
      assert page[..0] == [];
    } else {
      assert page[1..][..i - 1] == page[..i][1..];
      assert page[..i][0] == page[0];
      DetailsKeepPageOrder(s0.table, now, page[1..], q, codec, up, i - 1);
    }
  }

  lemma {:induction false} DetailsLength(t: Table, now: int, page: seq<Flight>, q: FlightsQuery, codec: Codec, up: Upstream)
    requires DetailsFrom(t, now, page, q, codec, up).failure.None?
    ensures |DetailsFrom(t, now, page, q, codec, up).values| == |page|
    ensures |DetailsFrom(t, now, page, q, codec, up).fetched| == |page|
    decreases |page|
  {
    if page != [] {
      var s := DetailStep(t, now, page[0], q, codec, up);
      DetailsLength(s.table, now, page[1..], q, codec, up);
    }
  }

  // ------------------------------------------------------------------
  // get_flights
  // ------------------------------------------------------------------

  predicate AllHaveData(vs: seq<DetailResponseValue>)
  {
    forall i :: 0 <= i < |vs| ==> vs[i].data.Some?
  }

  /** The details once `set_popularity_for_flights` has set every score. */
  function WithPopularity(vs: seq<DetailResponseValue>, store: seq<LayoverDb>): seq<DetailResponseValue>
    requires AllHaveData(vs)
  {
    seq(|vs|, i requires 0 <= i < |vs| =>
      var d := vs[i].data.value;
      vs[i].(data := Some(d.(popScore := Some(Layovers.CodesScore(Layovers.FlightCodes(d.legs), store))))))
  }

  /** The answer of `get_flights`, the cache table it leaves, and which
    * upstream calls it made. */
  datatype FlightsOutcome = FlightsOutcome(
    result: Result<seq<DetailResponseValue>, Failure>, table: Table, searchFetched: bool, detailFetched: seq<bool>)

  const ASSERTION_ERROR: string := "AssertionError"

  /** `get_flights` on a request whose codes and dates have been checked. */
  function SearchAndDetails(t: Table, now: int, q: FlightsQuery, store: seq<LayoverDb>, codec: Codec, up: Upstream): FlightsOutcome
    requires q.page >= 1
  {
    var s := CachedFetch(t, now, SearchKeyText(q, codec), codec.decodeSearch, up.search, SearchStatus, codec.encodeSearch);
    match s.result
    case Err(e) => FlightsOutcome(Err(e), s.table, s.fetched, [])
    case Ok(search) =>
      if search.data.None? then FlightsOutcome(Err(HttpError(404, "No flights found")), s.table, s.fetched, [])
      else AssembleSpec(s.table, now, Page(search.data.value, q.page), q, store, codec, up, s.fetched)
  }

  /** The part of `get_flights` after the page is cut: the detail requests in
    * page order, the `None` filter and the popularity pass, whose assertion
    * fails on a detail without `data`. */
  function AssembleSpec(t: Table, now: int, page: seq<Flight>, q: FlightsQuery, store: seq<LayoverDb>,
                        codec: Codec, up: Upstream, searchFetched: bool): FlightsOutcome
  {
    var d := DetailsFrom(t, now, page, q, codec, up);
    match d.failure
    case Some(e) => FlightsOutcome(Err(e), d.table, searchFetched, d.fetched)
    case None =>
      if !AllHaveData(d.values) then FlightsOutcome(Err(Crash(ASSERTION_ERROR)), d.table, searchFetched, d.fetched)
      else FlightsOutcome(Ok(WithPopularity(d.values, store)), d.table, searchFetched, d.fetched)
  }

  /** `get_flights` as a function of the cache table before the request. */
  function GetFlightsSpec(t: Table, now: int, q: FlightsQuery, airports: AirportTable, store: seq<LayoverDb>,
                          codec: Codec, up: Upstream): FlightsOutcome
    requires q.page >= 1
  {
    match ValidateIata(Some(q.origin), Some(q.dest), airports)
    case Err(e) => FlightsOutcome(Err(e), t, false, [])
    case Ok(_) =>
      if q.date > q.returnDate then FlightsOutcome(Err(HttpError(400, "Invalid dates")), t, false, [])
      else SearchAndDetails(t, now, q, store, codec, up)
  }

  /** A request with bad codes or a departure after the return is refused
    * with 400 before any cache read or upstream call; equal dates pass. */
  lemma BadRequestsTouchNothing(t: Table, now: int, q: FlightsQuery, airports: AirportTable, store: seq<LayoverDb>,
                                codec: Codec, up: Upstream)
    requires q.page >= 1
    ensures var o := GetFlightsSpec(t, now, q, airports, store, codec, up);
      (ValidateIata(Some(q.origin), Some(q.dest), airports).Err? || q.date > q.returnDate) ==>
        o.result.Err? && o.result.error.HttpError? && o.result.error.status == 400
        && o.table == t && !o.searchFetched && o.detailFetched == []
    ensures ValidateIata(Some(q.origin), Some(q.dest), airports).Ok? && q.date == q.returnDate ==>
      GetFlightsSpec(t, now, q, airports, store, codec, up) == SearchAndDetails(t, now, q, store, codec, up)
  {
    ValidateIataSpec(Some(q.origin), Some(q.dest), airports);
  }

  /** A fresh cached search means no upstream search call. */
  lemma CachedSearchIsNotFetched(t: Table, now: int, q: FlightsQuery, store: seq<LayoverDb>, codec: Codec, up: Upstream)
    requires q.page >= 1
    requires Lookup(t, SearchKeyText(q, codec), now).Some?
    ensures !SearchAndDetails(t, now, q, store, codec, up).searchFetched
  {
  }

  /** A successful answer holds at most one page of details, each with its
    * popularity set, and there was one detail request per page entry. */
  lemma AnswerIsOnePage(t: Table, now: int, q: FlightsQuery, store: seq<LayoverDb>, codec: Codec, up: Upstream)
    requires q.page >= 1
    ensures var o := SearchAndDetails(t, now, q, store, codec, up);
      o.result.Ok? ==>
        |o.result.value| <= PAGE_SIZE && |o.detailFetched| == |o.result.value|
        && forall i :: 0 <= i < |o.result.value| ==>
             o.result.value[i].data.Some? && o.result.value[i].data.value.popScore.Some?
  {
    var s := CachedFetch(t, now, SearchKeyText(q, codec), codec.decodeSearch, up.search, SearchStatus, codec.encodeSearch);
    if s.result.Ok? && s.result.value.data.Some? {
      var page := Page(s.result.value.data.value, q.page);
      var d := DetailsFrom(s.table, now, page, q, codec, up);
      if d.failure.None? {
        DetailsLength(s.table, now, page, q, codec, up);
      }
    }
  }

  /** The value a live detail-response object currently denotes. */
  function ValueOf(r: FlightDetailResponse): DetailResponseValue
    reads r.data
  {
    DetailResponseValue(r.status, if r.data == null then None else Some(FlightDetailValue(r.data.legs, r.data.popScore)))
  }

  /** `FlightDetailResponse.parse_raw` / the upstream call's fresh object. */
  method Materialize(v: DetailResponseValue) returns (r: FlightDetailResponse)
    ensures fresh(r) && (r.data != null ==> fresh(r.data))
    ensures ValueOf(r) == v
  {
    var data: FlightDetail? := null;
    if v.data.Some? {
      data := new FlightDetail(v.data.value.legs, v.data.value.popScore);
    }
    r := new FlightDetailResponse(v.status, data);
  }

  /** The non-null entries of `s`, in order. */
  function Present(s: seq<FlightDetailResponse?>): (r: seq<FlightDetailResponse>)
    ensures |r| <= |s|
    ensures (forall i :: 0 <= i < |s| ==> s[i] != null) ==> |r| == |s| && forall i :: 0 <= i < |s| ==> r[i] == s[i]
  {
    if s == [] then []
    else Present(s[..|s| - 1]) + (if s[|s| - 1] != null then [s[|s| - 1]] else [])
  }

  /** Prefix a run of detail results with the ones already obtained. */
  function Prepend(values: seq<DetailResponseValue>, fetched: seq<bool>, d: Details): Details
  {
    Details(values + d.values, fetched + d.fetched, d.table, d.failure)
  }

  /** The run from entry `i` on is entry `i`'s request, then the rest. */
  lemma DetailsUnfold(t: Table, now: int, page: seq<Flight>, i: int, q: FlightsQuery, codec: Codec, up: Upstream)
    requires 0 <= i < |page|
    ensures var s := DetailStep(t, now, page[i], q, codec, up);
      DetailsFrom(t, now, page[i..], q, codec, up) ==
        if s.result.Err? then Details([], [s.fetched], s.table, Some(s.result.error))
        else Prepend([s.result.value], [s.fetched], DetailsFrom(s.table, now, page[i + 1..], q, codec, up))
  {
    assert page[i..][0] == page[i] && page[i..][1..] == page[i + 1..];
  }

  lemma PrependTwice(values: seq<DetailResponseValue>, fetched: seq<bool>, v: DetailResponseValue, g: bool, d: Details)
    ensures Prepend(values, fetched, Prepend([v], [g], d)) == Prepend(values + [v], fetched + [g], d)
  {
    assert values + ([v] + d.values) == values + [v] + d.values;
    assert fetched + ([g] + d.fetched) == fetched + [g] + d.fetched;
  }

  /** The first `|values|` slots of `details` hold objects denoting
    * `values`, with pairwise distinct `data` objects. */
  ghost predicate Parked(details: array<FlightDetailResponse?>, values: seq<DetailResponseValue>)
    reads details, set a | 0 <= a < details.Length && details[a] != null && details[a].data != null :: details[a].data
  {
    && |values| <= details.Length
    && (forall a :: 0 <= a < |values| ==> details[a] != null && ValueOf(details[a]) == values[a])
    && (forall a, b :: 0 <= a < b < |values| && details[a].data != null ==> details[a].data != details[b].data)
  }

  /** Stores a fresh object for the answer `v` in slot `i` of the detail
    * array, leaving every other slot as it was. */
  method Park(details: array<FlightDetailResponse?>, i: int, v: DetailResponseValue, ghost values: seq<DetailResponseValue>)
    requires i == |values| < details.Length && Parked(details, values)
    modifies details
    ensures Parked(details, values + [v])
    ensures details[i] != null && fresh(details[i]) && (details[i].data != null ==> fresh(details[i].data))
    ensures forall a :: 0 <= a < details.Length && a != i ==> details[a] == old(details[a])
  {
    var obj := Materialize(v);
    details[i] := obj;
  }

  /** The loop of `get_flights` over the page: entry `i` is looked up in the
    * cache or fetched and parked at `details[i]`; the first failure ends the
    * request. */
  method LoadDetails(cache: CacheTable, now: int, page: seq<Flight>, q: FlightsQuery, codec: Codec, up: Upstream)
    returns (details: array<FlightDetailResponse?>, failure: Option<Failure>, ghost fetched: seq<bool>)
    modifies cache
    ensures fresh(details) && details.Length == |page|
    ensures var d := DetailsFrom(old(cache.entries), now, page, q, codec, up);
      && cache.entries == d.table && failure == d.failure && fetched == d.fetched
      && (failure.None? ==>
            && |d.values| == |page| && Parked(details, d.values)
            && (forall i :: 0 <= i < |page| ==>
                  details[i] != null && fresh(details[i]) && (details[i].data != null ==> fresh(details[i].data))))
  {
    details := new FlightDetailResponse?[|page|];
    ghost var target := DetailsFrom(cache.entries, now, page, q, codec, up);
    ghost var values: seq<DetailResponseValue> := [];
    fetched := [];
    assert page[0..] == page;
    for i := 0 to |page|
      invariant |values| == i
      invariant Prepend(values, fetched, DetailsFrom(cache.entries, now, page[i..], q, codec, up)) == target
      invariant Parked(details, values)
      invariant forall a :: 0 <= a < i ==>
        details[a] != null && fresh(details[a]) && (details[a].data != null ==> fresh(details[a].data))
    {
      var wasFetched;
      ghost var v;
      failure, wasFetched, v := LoadOne(cache, now, page, i, q, codec, up, details, values, fetched, target);
      fetched := fetched + [wasFetched];
      if failure.Some? {
        return;
      }
      values := values + [v];
    }
    failure := None;
  }

  /** One round of the loop: the request for entry `i`, its answer parked at
    * `details[i]` unless it failed. */
  method LoadOne(cache: CacheTable, now: int, page: seq<Flight>, i: int, q: FlightsQuery, codec: Codec, up: Upstream,
                 details: array<FlightDetailResponse?>, ghost values: seq<DetailResponseValue>, ghost fetched: seq<bool>,
                 ghost target: Details)
    returns (failure: Option<Failure>, wasFetched: bool, ghost v: DetailResponseValue)
    requires 0 <= i == |values| < |page| == details.Length
    requires Prepend(values, fetched, DetailsFrom(cache.entries, now, page[i..], q, codec, up)) == target
    requires Parked(details, values)
    modifies cache, details
    ensures failure.Some? ==>
      target.failure == failure && target.table == cache.entries && target.fetched == fetched + [wasFetched]
    ensures failure.None? ==>
      && Prepend(values + [v], fetched + [wasFetched], DetailsFrom(cache.entries, now, page[i + 1..], q, codec, up)) == target
      && Parked(details, values + [v])
      && details[i] != null && fresh(details[i]) && (details[i].data != null ==> fresh(details[i].data))
    ensures forall a :: 0 <= a < details.Length && a != i ==> details[a] == old(details[a])
  {
    var f := page[i];
    DetailsAdvance(target, cache.entries, now, page, i, values, fetched, q, codec, up);
    var r;
    r, wasFetched := LoadCached(cache, now, DetailKeyText(q, codec, f), codec.decodeDetail, up.detail(f.id),
                                DetailStatus, codec.encodeDetail);
    if r.Err? {
      return Some(r.error), wasFetched, DetailResponseValue(None, None);
    }
    v := r.value;
    Park(details, i, r.value, values);
    failure := None;
  }

  /** One detail request moves the loop forward: it either ends the run with
    * its failure, or its answer joins the results obtained so far. */
  lemma DetailsAdvance(target: Details, before: Table, now: int, page: seq<Flight>, i: int,
                       values: seq<DetailResponseValue>, fetched: seq<bool>, q: FlightsQuery, codec: Codec, up: Upstream)
    requires 0 <= i < |page|
    requires Prepend(values, fetched, DetailsFrom(before, now, page[i..], q, codec, up)) == target
    ensures var s := DetailStep(before, now, page[i], q, codec, up);
      && (s.result.Err? ==>
            target.failure == Some(s.result.error) && target.table == s.table && target.fetched == fetched + [s.fetched])
      && (s.result.Ok? ==>
            Prepend(values + [s.result.value], fetched + [s.fetched], DetailsFrom(s.table, now, page[i + 1..], q, codec, up)) == target)
  {
    var s := DetailStep(before, now, page[i], q, codec, up);
    DetailsUnfold(before, now, page, i, q, codec, up);
    if s.result.Ok? {
      PrependTwice(values, fetched, s.result.value, s.fetched, DetailsFrom(s.table, now, page[i + 1..], q, codec, up));
    }
  }

  /** `get_flights`: the model of the whole endpoint body. On success the
    * answer is one fresh object per page entry, in page order, denoting the
    * parsed detail with its popularity set. */
  method GetFlights(cache: CacheTable, now: int, q: FlightsQuery, airports: AirportTable, store: seq<LayoverDb>,
                    codec: Codec, up: Upstream)
    returns (r: Result<seq<FlightDetailResponse>, Failure>, ghost searchFetched: bool, ghost detailFetched: seq<bool>)
    requires q.page >= 1
    modifies cache
    ensures var o := GetFlightsSpec(old(cache.entries), now, q, airports, store, codec, up);
      && cache.entries == o.table && searchFetched == o.searchFetched && detailFetched == o.detailFetched
      && (r.Err? <==> o.result.Err?)
      && (r.Err? ==> r.error == o.result.error)
      && (r.Ok? ==>
            |r.value| == |o.result.value|
            && forall i :: 0 <= i < |r.value| ==> fresh(r.value[i]) && ValueOf(r.value[i]) == o.result.value[i])
  {
    searchFetched, detailFetched := false, [];
    var valid := ValidateIata(Some(q.origin), Some(q.dest), airports);
    if valid.Err? {
      return Err(valid.error), false, [];
    }
    if q.date > q.returnDate {
      return Err(HttpError(400, "Invalid dates")), false, [];
    }

    var search, fetchedSearch := LoadCached(cache, now, SearchKeyText(q, codec), codec.decodeSearch, up.search,
                                            SearchStatus, codec.encodeSearch);
    searchFetched := fetchedSearch;
    if search.Err? {
      return Err(search.error), searchFetched, [];
    }
    if search.value.data.None? {
      return Err(HttpError(404, "No flights found")), searchFetched, [];
    }
    var page := Page(search.value.data.value, q.page);
    r, detailFetched := Assemble(cache, now, page, q, store, codec, up, searchFetched);
  }

  /** The detail loop, the `None` filter and `set_popularity_for_flights`. */
  method Assemble(cache: CacheTable, now: int, page: seq<Flight>, q: FlightsQuery, store: seq<LayoverDb>,
                  codec: Codec, up: Upstream, ghost searchFetched: bool)
    returns (r: Result<seq<FlightDetailResponse>, Failure>, ghost detailFetched: seq<bool>)
    modifies cache
    ensures var o := AssembleSpec(old(cache.entries), now, page, q, store, codec, up, searchFetched);
      && cache.entries == o.table && detailFetched == o.detailFetched
      && (r.Err? <==> o.result.Err?)
      && (r.Err? ==> r.error == o.result.error)
      && (r.Ok? ==>
            |r.value| == |o.result.value|
            && forall i :: 0 <= i < |r.value| ==> fresh(r.value[i]) && ValueOf(r.value[i]) == o.result.value[i])
  {
    ghost var t1 := cache.entries;
    var details, failure, fetchedDetails := LoadDetails(cache, now, page, q, codec, up);
    detailFetched := fetchedDetails;
    if failure.Some? {
      return Err(failure.value), detailFetched;
    }
    ghost var d := DetailsFrom(t1, now, page, q, codec, up);

    var detailsPop := Present(details[..]);
    assert forall i :: 0 <= i < |detailsPop| ==> detailsPop[i] == details[i];
    if exists i :: 0 <= i < |detailsPop| && detailsPop[i].data == null {
      var i :| 0 <= i < |detailsPop| && detailsPop[i].data == null;
      assert d.values[i].data.None?;
      return Err(Crash(ASSERTION_ERROR)), detailFetched;
    }
    assert AllHaveData(d.values);
    Layovers.SetPopularityForFlights(detailsPop, store);
    r := Ok(detailsPop);
    forall i | 0 <= i < |detailsPop|
      ensures ValueOf(detailsPop[i]) == WithPopularity(d.values, store)[i]
    {
      assert Layovers.Unshared(detailsPop, i);
    }
  }

  // ------------------------------------------------------------------
  // update_me
  // ------------------------------------------------------------------

  /** The statement `update_me` executes and its parameter list. */
  datatype UpdateQuery = UpdateQuery(sql: string, values: seq<string>)

  const EMAIL: string := "email"
  const FIRST_NAME: string := "first_name"
  const PROFILE_PICTURE: string := "profile_picture"
  const UPDATE_PREFIX: string := "UPDATE users SET "
  const WHERE_ID: string := " WHERE " + Item("id")

  /** The statement for the given SET columns: `UPDATE users SET c1 = ?, c2 = ? WHERE id = ?`. */
  function Statement(columns: seq<string>): string
  {
    UPDATE_PREFIX + Join(Items(columns)) + WHERE_ID
  }

  /** One SET item, `col = ?`. */
  function Item(column: string): string
  {
    column + " = ?"
  }

  /** The columns of the fields present, in the order email, first_name,
    * profile_picture. */
  function SetColumns(u: MeUpdate): seq<string>
  {
    ColumnIf(u.email, EMAIL) + ColumnIf(u.firstName, FIRST_NAME) + ColumnIf(u.profilePicture, PROFILE_PICTURE)
  }

  /** The values of the fields present, in the same order. */
  function SetValues(u: MeUpdate): seq<string>
  {
    ValueIf(u.email) + ValueIf(u.firstName) + ValueIf(u.profilePicture)
  }

  function ColumnIf(field: Option<string>, column: string): seq<string>
  {
    if field.Some? then [column] else []
  }

  function ValueIf(field: Option<string>): seq<string>
  {
    if field.Some? then [field.value] else []
  }

  function Items(columns: seq<string>): seq<string>
  {
    seq(|columns|, k requires 0 <= k < |columns| => Item(columns[k]))
  }

  /** The items separated by a comma and a space, with no separator after
    * the last one. */
  function Join(items: seq<string>): string
  {
    if |items| == 0 then ""
    else if |items| == 1 then items[0]
    else Join(items[..|items| - 1]) + ", " + items[|items| - 1]
  }

  /** Every item followed by `", "`, as `update_me` accumulates them. */
  function Terminated(items: seq<string>): string
  {
    if items == [] then "" else Terminated(items[..|items| - 1]) + items[|items| - 1] + ", "
  }

  lemma {:induction false} TerminatedIsJoinPlusSeparator(items: seq<string>)
    requires items != []
    ensures Terminated(items) == Join(items) + ", "
  {
    if |items| > 1 {
      TerminatedIsJoinPlusSeparator(items[..|items| - 1]);
    } else {
      assert items[..0] == [];
    }
  }

  lemma TerminatedSnoc(items: seq<string>, x: string)
    ensures Terminated(items + [x]) == Terminated(items) + x + ", "
  {
    assert (items + [x])[..|items|] == items;
  }

  /** One optional column of the update: when its field is set, the column's
    * assignment with a placeholder and a trailing separator is added to the
    * statement and the field's value to the values; otherwise nothing
    * changes. */
  method AddField(q: string, v: seq<string>, ghost columns: seq<string>, field: Option<string>, column: string)
    returns (q': string, v': seq<string>, ghost columns': seq<string>)
    requires q == UPDATE_PREFIX + Terminated(Items(columns))
    ensures columns' == columns + ColumnIf(field, column)
    ensures v' == v + ValueIf(field)
    ensures q' == UPDATE_PREFIX + Terminated(Items(columns'))
  {
    q', v', columns' := q, v, columns;
    if field.Some? {
      columns' := columns + [column];
      assert Items(columns') == Items(columns) + [Item(column)];
      TerminatedSnoc(Items(columns), Item(column));
      q' := q + Item(column) + ", ";
      v' := v + [field.value];
    } else {
      assert columns + [] == columns && v + [] == v;
    }
  }

  /** The query of `update_me`, built piece by piece: one `col = ?, ` per
    * field present, the trailing `, ` cut off and the `WHERE` clause added;
    * the values are the fields present followed by the user id. No query
    * when no field is present. */
  method BuildUpdateQuery(update: MeUpdate, userId: string) returns (r: Option<UpdateQuery>)
    ensures r.None? <==> update.email.None? && update.firstName.None? && update.profilePicture.None?
    ensures r.Some? ==> r.value.sql == Statement(SetColumns(update))
    ensures r.Some? ==> r.value.values == SetValues(update) + [userId]
  {
    var q := UPDATE_PREFIX;
    var v: seq<string> := [];
    ghost var columns: seq<string> := [];
    assert Items(columns) == [];

    q, v, columns := AddField(q, v, columns, update.email, EMAIL);
    assert columns == ColumnIf(update.email, EMAIL) && v == ValueIf(update.email);
    q, v, columns := AddField(q, v, columns, update.firstName, FIRST_NAME);
    q, v, columns := AddField(q, v, columns, update.profilePicture, PROFILE_PICTURE);
    NoValuesIffNoFields(update);
    r := Finish(q, v, columns, userId);
  }

  /** When some column is set, drop the trailing separator, append the WHERE
    * clause and add the user id to the values; with no column set there is
    * no query. */
  method Finish(q: string, v: seq<string>, ghost columns: seq<string>, userId: string) returns (r: Option<UpdateQuery>)
    requires q == UPDATE_PREFIX + Terminated(Items(columns)) && |v| == |columns|
    ensures |v| == 0 ==> r.None?
    ensures |v| != 0 ==> r == Some(UpdateQuery(Statement(columns), v + [userId]))
  {
    if |v| != 0 {
      CutSeparator(UPDATE_PREFIX, Items(columns));
      var sql := q[..|q| - 2] + WHERE_ID;
      r := Some(UpdateQuery(sql, v + [userId]));
    } else {
      r := None;
    }
  }

  /** The field of `update` that a column of the users table receives. */
  function FieldFor(u: MeUpdate, column: string): Option<string>
  {
    if column == EMAIL then u.email
    else if column == FIRST_NAME then u.firstName
    else if column == PROFILE_PICTURE then u.profilePicture
    else None
  }

  /** Position of a settable column in the order `update_me` tests them. */
  function Rank(column: string): nat
  {
    if column == EMAIL then 0 else if column == FIRST_NAME then 1 else 2
  }

  /** The SET clause names a column exactly when its field is present, in
    * the order email, first_name, profile_picture, each once, and the value
    * at each position is that column's field. */
  lemma SetColumnsSelectFields(u: MeUpdate)
    ensures EMAIL in SetColumns(u) <==> u.email.Some?
    ensures FIRST_NAME in SetColumns(u) <==> u.firstName.Some?
    ensures PROFILE_PICTURE in SetColumns(u) <==> u.profilePicture.Some?
    ensures |SetValues(u)| == |SetColumns(u)|
    ensures forall k :: 0 <= k < |SetColumns(u)| ==> FieldFor(u, SetColumns(u)[k]) == Some(SetValues(u)[k])
    ensures forall k, l :: 0 <= k < l < |SetColumns(u)| ==> Rank(SetColumns(u)[k]) < Rank(SetColumns(u)[l])
  {
    assert EMAIL != FIRST_NAME && EMAIL != PROFILE_PICTURE && FIRST_NAME != PROFILE_PICTURE;
  }

  lemma NoValuesIffNoFields(u: MeUpdate)
    ensures |SetValues(u)| == |SetColumns(u)|
    ensures SetValues(u) == [] <==> u.email.None? && u.firstName.None? && u.profilePicture.None?
  {
  }

  /** `q[:-2]` removes exactly the separator after the last item. */
  lemma CutSeparator(prefix: string, items: seq<string>)
    requires items != []
    ensures var q := prefix + Terminated(items);
      |q| >= 2 && q[..|q| - 2] == prefix + Join(items)
  {
    TerminatedIsJoinPlusSeparator(items);
    var q := prefix + Terminated(items);
    assert q == (prefix + Join(items)) + ", ";
  }

  /** Occurrences of the placeholder `?` in a string. */
  function Placeholders(s: string): nat
  {
    multiset(s)['?']
  }

  lemma {:induction false} JoinPlaceholders(items: seq<string>)
    requires forall k :: 0 <= k < |items| ==> Placeholders(items[k]) == 1
    ensures Placeholders(Join(items)) == |items|
  {
    if |items| > 1 {
      JoinPlaceholders(items[..|items| - 1]);
      assert multiset(Join(items)) == multiset(Join(items[..|items| - 1])) + multiset(", ") + multiset(items[|items| - 1]);
    }
  }

  lemma ItemPlaceholders(column: string)
    requires '?' !in column
    ensures Placeholders(Item(column)) == 1
  {
    assert multiset(Item(column)) == multiset(column) + multiset(" = ?");
  }

  /** The built statement has exactly one placeholder per value: one per
    * field present and one for the user id. */
  lemma PlaceholdersMatchValues(update: MeUpdate, userId: string)
    requires SetColumns(update) != []
    ensures Placeholders(Statement(SetColumns(update))) == |SetValues(update) + [userId]|
  {
    var columns := SetColumns(update);
    ColumnsMatchValues(update);
    assert forall k :: 0 <= k < |columns| ==> '?' !in columns[k];
    StatementPlaceholders(columns);
    assert Placeholders(Statement(columns)) == |columns| + 1;
    assert |SetValues(update) + [userId]| == |columns| + 1;
  }

  lemma ColumnsMatchValues(u: MeUpdate)
    ensures |SetColumns(u)| == |SetValues(u)|
    ensures forall k :: 0 <= k < |SetColumns(u)| ==> '?' !in SetColumns(u)[k]
  {
    assert '?' !in EMAIL && '?' !in FIRST_NAME && '?' !in PROFILE_PICTURE;
  }

  lemma StatementPlaceholders(columns: seq<string>)
    requires forall k :: 0 <= k < |columns| ==> '?' !in columns[k]
    ensures Placeholders(Statement(columns)) == |columns| + 1
  {
    forall k | 0 <= k < |columns| ensures Placeholders(Items(columns)[k]) == 1 {
      ItemPlaceholders(columns[k]);
    }
    JoinPlaceholders(Items(columns));
    FixedPartsPlaceholders();
    PlaceholdersConcat(UPDATE_PREFIX, Join(Items(columns)));
    PlaceholdersConcat(UPDATE_PREFIX + Join(Items(columns)), WHERE_ID);
  }

  lemma PlaceholdersConcat(a: string, b: string)
    ensures Placeholders(a + b) == Placeholders(a) + Placeholders(b)
  {
    assert multiset(a + b) == multiset(a) + multiset(b);
  }

  lemma FixedPartsPlaceholders()
    ensures Placeholders(UPDATE_PREFIX) == 0 && Placeholders(WHERE_ID) == 1
  {
    assert '?' !in UPDATE_PREFIX;
    assert '?' !in " WHERE " && '?' !in "id";
    ItemPlaceholders("id");
    PlaceholdersConcat(" WHERE ", Item("id"));
  }
}
